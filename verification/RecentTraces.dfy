/** Recent traces: completed and in-progress rows are limited separately, merged, sorted and limited again. */
module RecentTraces {
  import opened Common
  import opened Sorting

  datatype Recent = Recent(trace: string, start: int, completed: bool)

  /** Sorting by this key is sorting by start time, latest first. */
  function Later(r: Recent): int { -r.start }

  function Min(a: nat, b: nat): nat { if a < b then a else b }

  /** r could be the answer to "latest first, at most k of all": what it leaves out starts no later. */
  ghost predicate IsTop(all: seq<Recent>, k: nat, r: seq<Recent>) {
    && SortedBy(Later, r) && |r| == Min(k, |all|)
    && exists rest: seq<Recent> :: multiset(all) == multiset(r) + multiset(rest) && NoneLater(r, rest)
  }

  ghost predicate NoneLater(r: seq<Recent>, rest: seq<Recent>) {
    forall x, y :: x in r && y in rest ==> y.start <= x.start
  }

  predicate Lists(rows: seq<Recent>, trace: string) { exists x <- rows :: x.trace == trace }

  /** The rows whose trace is not listed. */
  function NotListed(listed: seq<Recent>, rows: seq<Recent>): seq<Recent> {
    if rows == [] then []
    else (if Lists(listed, rows[0].trace) then [] else [rows[0]]) + NotListed(listed, rows[1..])
  }

  method ListAll(rootRows: seq<Recent>, inProgressRows: seq<Recent>) returns (all: seq<Recent>)
    ensures all == rootRows + NotListed(rootRows, inProgressRows)
  {
    all := rootRows;
    for i := 0 to |inProgressRows|
      invariant all + NotListed(rootRows, inProgressRows[i..]) == rootRows + NotListed(rootRows, inProgressRows)
    {
      var r := inProgressRows[i];
      assert inProgressRows[i..][1..] == inProgressRows[i+1..];
      if Lists(rootRows, r.trace) {
        continue;
      }
      ConcatAssoc(all, [r], NotListed(rootRows, inProgressRows[i+1..]));
      all := all + [r];
    }
  }

  /** The server's merge. In-progress rows of a trace that is among the completed ones are skipped; as long as
      the in-progress rows were all there, or none is skipped, nothing is lost by that. */
  method MergeRecent(rootRows: seq<Recent>, inProgressRows: seq<Recent>, k: nat,
                     ghost completed: seq<Recent>, ghost inProgress: seq<Recent>)
    returns (results: seq<Recent>)
    requires IsTop(completed, k, rootRows) && IsTop(inProgress, k, inProgressRows)
    ensures IsTop(completed + NotListed(rootRows, inProgressRows), k, results)
    ensures |inProgress| <= k ==> IsTop(completed + NotListed(rootRows, inProgress), k, results)
    ensures NotListed(rootRows, inProgressRows) == inProgressRows ==> IsTop(completed + inProgress, k, results)
  {
    var all := ListAll(rootRows, inProgressRows);
    var sorted := SortBy(Later, all);
    results := sorted[..Min(k, |sorted|)];
    KeptMerged(completed, rootRows, inProgressRows, k, sorted);
    if |inProgress| <= k {
      WholeMerged(completed, inProgress, rootRows, inProgressRows, k, results);
    }
    if NotListed(rootRows, inProgressRows) == inProgressRows {
      MergedIsTop(completed, inProgress, rootRows, inProgressRows, k, sorted);
    }
  }

  lemma KeptMerged(completed: seq<Recent>, rootRows: seq<Recent>, inProgressRows: seq<Recent>, k: nat, sorted: seq<Recent>)
    requires IsTop(completed, k, rootRows) && SortedBy(Later, inProgressRows) && |inProgressRows| <= k
    requires sorted == SortBy(Later, rootRows + NotListed(rootRows, inProgressRows))
    ensures IsTop(completed + NotListed(rootRows, inProgressRows), k, sorted[..Min(k, |sorted|)])
  {
    var kept := NotListed(rootRows, inProgressRows);
    KeptIsTop(rootRows, inProgressRows, k);
    MergedIsTop(completed, kept, rootRows, kept, k, sorted);
  }

  lemma WholeMerged(completed: seq<Recent>, inProgress: seq<Recent>, rootRows: seq<Recent>, inProgressRows: seq<Recent>, k: nat,
                    results: seq<Recent>)
    requires IsTop(inProgress, k, inProgressRows) && |inProgress| <= k
    requires IsTop(completed + NotListed(rootRows, inProgressRows), k, results)
    ensures IsTop(completed + NotListed(rootRows, inProgress), k, results)
  {
    NothingCut(inProgress, k, inProgressRows);
    SameNotListed(rootRows, inProgress, inProgressRows);
    SameTop(completed + NotListed(rootRows, inProgressRows), completed + NotListed(rootRows, inProgress), k, results);
  }

  lemma {:induction false} NotListedCounts(listed: seq<Recent>, rows: seq<Recent>, x: Recent)
    ensures multiset(NotListed(listed, rows))[x] == if Lists(listed, x.trace) then 0 else multiset(rows)[x]
  {
    if rows != [] {
      NotListedCounts(listed, rows[1..], x);
      assert rows == [rows[0]] + rows[1..];
    }
  }

  lemma SameNotListed(listed: seq<Recent>, a: seq<Recent>, b: seq<Recent>)
    requires multiset(a) == multiset(b)
    ensures multiset(NotListed(listed, a)) == multiset(NotListed(listed, b))
  {
    forall x ensures multiset(NotListed(listed, a))[x] == multiset(NotListed(listed, b))[x] {
      NotListedCounts(listed, a, x);
      NotListedCounts(listed, b, x);
    }
  }

  lemma {:induction false} KeptIsSorted(listed: seq<Recent>, rows: seq<Recent>)
    requires SortedBy(Later, rows)
    ensures SortedBy(Later, NotListed(listed, rows)) && |NotListed(listed, rows)| <= |rows|
    ensures forall x <- NotListed(listed, rows) :: x in rows
  {
    if rows != [] {
      KeptIsSorted(listed, rows[1..]);
      var kept := NotListed(listed, rows[1..]);
      forall z <- kept ensures Later(rows[0]) <= Later(z) {
        assert z in rows[1..];
      }
      PrependSorted(Later, rows[0], kept, multiset(kept));
    }
  }

  /** What is kept of at most k sorted rows is its own top. */
  lemma KeptIsTop(listed: seq<Recent>, rows: seq<Recent>, k: nat)
    requires SortedBy(Later, rows) && |rows| <= k
    ensures IsTop(NotListed(listed, rows), k, NotListed(listed, rows))
  {
    KeptIsSorted(listed, rows);
    var kept := NotListed(listed, rows);
    assert multiset(kept) == multiset(kept) + multiset([]) && NoneLater(kept, []);
  }

  lemma NothingCut(all: seq<Recent>, k: nat, r: seq<Recent>)
    requires IsTop(all, k, r) && |all| <= k
    ensures multiset(all) == multiset(r)
  {
    var rest: seq<Recent> :| multiset(all) == multiset(r) + multiset(rest) && NoneLater(r, rest);
    assert |multiset(all)| == |r| + |rest|;
  }

  lemma SameTop(a: seq<Recent>, b: seq<Recent>, k: nat, r: seq<Recent>)
    requires IsTop(a, k, r) && multiset(a) == multiset(b)
    ensures IsTop(b, k, r)
  {
    assert |multiset(a)| == |a| && |multiset(b)| == |b|;
  }

  /** Rows that all start later than sorted[i] fit before it. */
  lemma FitBefore(some: seq<Recent>, sorted: seq<Recent>, i: nat)
    requires SortedBy(Later, sorted) && i < |sorted| && multiset(some) <= multiset(sorted)
    requires forall x <- some :: sorted[i].start < x.start
    ensures |some| <= i
  {
    assert sorted == sorted[..i] + sorted[i..];
    forall z <- sorted[i..] ensures z.start <= sorted[i].start {
      var j :| i <= j < |sorted| && sorted[j] == z;
    }
    forall x | x in multiset(some) ensures multiset(some)[x] <= multiset(sorted[..i])[x] {
      assert x in some && x !in sorted[i..] && x !in multiset(sorted[i..]);
    }
    var a, b := multiset(some), multiset(sorted[..i]);
    assert b == a + (b - a);
  }

  /** A row left out by one of the two queries starts no later than anything in the merged answer. */
  lemma LeftOutEarlier(all: seq<Recent>, k: nat, top: seq<Recent>, rest: seq<Recent>, sorted: seq<Recent>, x: Recent, y: Recent)
    requires |top| == Min(k, |all|) && multiset(all) == multiset(top) + multiset(rest) && NoneLater(top, rest)
    requires SortedBy(Later, sorted) && multiset(top) <= multiset(sorted)
    requires x in sorted[..Min(k, |sorted|)] && y in rest
    ensures y.start <= x.start
  {
    assert |multiset(all)| == |top| + |rest| && |rest| > 0;
    var i :| 0 <= i < Min(k, |sorted|) && sorted[i] == x;
    if x.start < y.start {
      FitBefore(top, sorted, i);
    }
  }

  lemma MergedRows(completed: seq<Recent>, inProgress: seq<Recent>, rootRows: seq<Recent>, inProgressRows: seq<Recent>,
                   restC: seq<Recent>, restP: seq<Recent>, sorted: seq<Recent>, n: nat)
    requires multiset(completed) == multiset(rootRows) + multiset(restC)
    requires multiset(inProgress) == multiset(inProgressRows) + multiset(restP)
    requires multiset(sorted) == multiset(rootRows + inProgressRows) && n <= |sorted|
    ensures multiset(completed + inProgress) == multiset(sorted[..n]) + multiset(sorted[n..] + restC + restP)
    ensures |completed| == |rootRows| + |restC| && |inProgress| == |inProgressRows| + |restP|
    ensures |sorted| == |rootRows| + |inProgressRows|
  {
    var (a, b, c, p) := (multiset(sorted[..n]), multiset(sorted[n..]), multiset(restC), multiset(restP));
    assert sorted == sorted[..n] + sorted[n..] && multiset(sorted) == a + b;
    assert multiset(completed + inProgress) == (multiset(rootRows) + c) + (multiset(inProgressRows) + p);
    assert multiset(sorted[n..] + restC + restP) == b + c + p;
    assert (multiset(rootRows) + c) + (multiset(inProgressRows) + p) == (multiset(rootRows) + multiset(inProgressRows)) + (c + p);
    assert a + (b + c + p) == (a + b) + (c + p);
    assert |multiset(completed)| == |completed| && |multiset(inProgress)| == |inProgress|;
    assert |multiset(sorted)| == |sorted| && |multiset(rootRows + inProgressRows)| == |rootRows + inProgressRows|;
  }

  lemma MergedLater(completed: seq<Recent>, inProgress: seq<Recent>, rootRows: seq<Recent>, inProgressRows: seq<Recent>,
                    restC: seq<Recent>, restP: seq<Recent>, k: nat, sorted: seq<Recent>, x: Recent, y: Recent)
    requires |rootRows| == Min(k, |completed|) && |inProgressRows| == Min(k, |inProgress|)
    requires multiset(completed) == multiset(rootRows) + multiset(restC) && NoneLater(rootRows, restC)
    requires multiset(inProgress) == multiset(inProgressRows) + multiset(restP) && NoneLater(inProgressRows, restP)
    requires SortedBy(Later, sorted) && multiset(sorted) == multiset(rootRows + inProgressRows)
    requires x in sorted[..Min(k, |sorted|)] && y in sorted[Min(k, |sorted|)..] + restC + restP
    ensures y.start <= x.start
  {
    if y in restC {
      LeftOutEarlier(completed, k, rootRows, restC, sorted, x, y);
    } else if y in restP {
      LeftOutEarlier(inProgress, k, inProgressRows, restP, sorted, x, y);
    } else {
      TailEarlier(sorted, Min(k, |sorted|), x, y);
    }
  }

  lemma MergedIsTop(completed: seq<Recent>, inProgress: seq<Recent>, rootRows: seq<Recent>, inProgressRows: seq<Recent>,
                    k: nat, sorted: seq<Recent>)
    requires IsTop(completed, k, rootRows) && IsTop(inProgress, k, inProgressRows)
    requires sorted == SortBy(Later, rootRows + inProgressRows)
    ensures IsTop(completed + inProgress, k, sorted[..Min(k, |sorted|)])
  {
    var restC: seq<Recent> :| multiset(completed) == multiset(rootRows) + multiset(restC) && NoneLater(rootRows, restC);
    var restP: seq<Recent> :| multiset(inProgress) == multiset(inProgressRows) + multiset(restP) && NoneLater(inProgressRows, restP);
    var n := Min(k, |sorted|);
    var (top, rest) := (sorted[..n], sorted[n..] + restC + restP);
    MergedRows(completed, inProgress, rootRows, inProgressRows, restC, restP, sorted, n);
    forall x, y | x in top && y in rest ensures y.start <= x.start {
      MergedLater(completed, inProgress, rootRows, inProgressRows, restC, restP, k, sorted, x, y);
    }
    assert NoneLater(top, rest);
  }

  lemma TailEarlier(sorted: seq<Recent>, n: nat, x: Recent, y: Recent)
    requires SortedBy(Later, sorted) && n <= |sorted| && x in sorted[..n] && y in sorted[n..]
    ensures y.start <= x.start
  {
    var i :| 0 <= i < n && sorted[i] == x;
    var j :| n <= j < |sorted| && sorted[j] == y;
    assert Later(sorted[i]) <= Later(sorted[j]);
  }
}

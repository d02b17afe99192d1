/** Stable sorting of a sequence by an integer key, as the runtime libraries do it. */
module Sorting {

  ghost predicate SortedBy<T>(key: T -> int, s: seq<T>) {
    forall i, j :: 0 <= i < j < |s| ==> key(s[i]) <= key(s[j])
  }

  function InsertBy<T>(key: T -> int, x: T, s: seq<T>): (r: seq<T>)
    ensures multiset(r) == multiset(s) + multiset{x} && |r| == |s| + 1
  {
    if s == [] || key(x) <= key(s[0]) then [x] + s
    else
      assert s == [s[0]] + s[1..];
      [s[0]] + InsertBy(key, x, s[1..])
  }

  lemma {:induction false} InsertSorted<T>(key: T -> int, x: T, s: seq<T>)
    requires SortedBy(key, s)
    ensures SortedBy(key, InsertBy(key, x, s))
  {
    if s != [] && key(x) > key(s[0]) {
      InsertSorted(key, x, s[1..]);
      PrependSorted(key, s[0], InsertBy(key, x, s[1..]), multiset(s[1..]) + multiset{x});
    }
  }

  lemma PrependSorted<T>(key: T -> int, y: T, s: seq<T>, ms: multiset<T>)
    requires SortedBy(key, s) && multiset(s) == ms && forall z <- ms :: key(y) <= key(z)
    ensures SortedBy(key, [y] + s)
  {
    forall z <- s ensures key(y) <= key(z) {
      assert z in ms;
    }
  }

  /** Ascending, a permutation of the input, equal keys in input order. */
  function SortBy<T>(key: T -> int, s: seq<T>): (r: seq<T>)
    ensures SortedBy(key, r) && multiset(r) == multiset(s) && |r| == |s|
  {
    if s == [] then []
    else
      assert s == [s[0]] + s[1..];
      InsertSorted(key, s[0], SortBy(key, s[1..]));
      InsertBy(key, s[0], SortBy(key, s[1..]))
  }

  lemma SortMembers<T>(key: T -> int, s: seq<T>)
    ensures forall x :: x in SortBy(key, s) <==> x in s
  {
    forall x ensures x in SortBy(key, s) <==> x in s {
      assert x in SortBy(key, s) <==> x in multiset(SortBy(key, s));
      assert x in s <==> x in multiset(s);
    }
  }

  predicate Distinct<T(==)>(s: seq<T>) { forall i, j :: 0 <= i < j < |s| ==> s[i] != s[j] }

  lemma DistinctConcat<T>(a: seq<T>, b: seq<T>)
    requires Distinct(a) && Distinct(b) && forall x <- a :: x !in b
    ensures Distinct(a + b)
  {
    var c := a + b;
    forall i, j | 0 <= i < j < |c| ensures c[i] != c[j] {
      if i < |a| <= j {
        assert c[i] in a && c[j] in b;
      }
    }
  }

  lemma {:induction false} DistinctCount<T>(s: seq<T>)
    requires Distinct(s)
    ensures forall x :: multiset(s)[x] <= 1
  {
    if s != [] {
      var front := s[..|s|-1];
      assert s == front + [s[|s|-1]];
      DistinctCount(front);
      assert s[|s|-1] !in front;
    }
  }

  lemma CountDistinct<T>(s: seq<T>)
    requires forall x :: multiset(s)[x] <= 1
    ensures Distinct(s)
  {
    forall i, j | 0 <= i < j < |s| ensures s[i] != s[j] {
      assert s == s[..j] + [s[j]] + s[j+1..];
      assert multiset(s) == multiset(s[..j]) + multiset{s[j]} + multiset(s[j+1..]);
      assert s[..j][i] == s[i] && s[i] in multiset(s[..j]);
      assert multiset(s)[s[i]] <= 1 && multiset(s[..j])[s[i]] >= 1;
    }
  }

  lemma SortDistinct<T>(key: T -> int, s: seq<T>)
    requires Distinct(s)
    ensures Distinct(SortBy(key, s))
  {
    DistinctCount(s);
    CountDistinct(SortBy(key, s));
  }

  ghost predicate Before<T>(s: seq<T>, x: T, y: T) { exists i, j :: 0 <= i < j < |s| && s[i] == x && s[j] == y }

  lemma BeforeInTail<T>(s: seq<T>, x: T, y: T)
    requires s != [] && (Before(s[1..], x, y) || (x == s[0] && y in s[1..]))
    ensures Before(s, x, y)
  {
    if Before(s[1..], x, y) {
      var i, j :| 0 <= i < j < |s[1..]| && s[1..][i] == x && s[1..][j] == y;
      assert s[i+1] == x && s[j+1] == y;
    } else {
      var j :| 0 <= j < |s[1..]| && s[1..][j] == y;
      assert s[j+1] == y;
    }
  }

  lemma {:induction false} InsertStable<T>(key: T -> int, x: T, s: seq<T>, i: nat, j: nat)
    requires i < j < |s| + 1
    ensures var r := InsertBy(key, x, s);
      key(r[i]) == key(r[j]) ==> (r[i] == x && r[j] in s) || Before(s, r[i], r[j])
  {
    var r := InsertBy(key, x, s);
    if s == [] || key(x) <= key(s[0]) {
      assert i > 0 ==> s[i-1] == r[i] && s[j-1] == r[j];
    } else if i > 0 {
      InsertStable(key, x, s[1..], i - 1, j - 1);
      if Before(s[1..], r[i], r[j]) {
        BeforeInTail(s, r[i], r[j]);
      }
    } else if key(r[i]) == key(r[j]) {
      var rest := InsertBy(key, x, s[1..]);
      assert r[j] == rest[j-1] && rest[j-1] in multiset(rest);
      BeforeInTail(s, r[i], r[j]);
    }
  }

  /** Equal keys stay in the order they came in. */
  lemma {:induction false} SortStable<T>(key: T -> int, s: seq<T>, x: T, y: T)
    requires Before(SortBy(key, s), x, y) && key(x) == key(y)
    ensures Before(s, x, y)
  {
    var (rest, r) := (SortBy(key, s[1..]), SortBy(key, s));
    var i, j :| 0 <= i < j < |r| && r[i] == x && r[j] == y;
    InsertStable(key, s[0], rest, i, j);
    if Before(rest, x, y) {
      SortStable(key, s[1..], x, y);
    } else {
      SortMembers(key, s[1..]);
    }
    BeforeInTail(s, x, y);
  }
}

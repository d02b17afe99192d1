/** What a walk from the roots sees, and the token totals it adds up. */
module ForestStats {
  import opened Common
  import opened Sorting
  import opened SpanForest

  // ---------------------------------------------------------------- parent chains

  /** The parent chain of x ends after n links at a node whose parent is no node. */
  ghost predicate Climbs(parent: map<Id, Id>, x: Id, n: nat)
    decreases n
  {
    && x in parent
    && if parent[x] !in parent then n == 0 else n > 0 && Climbs(parent, parent[x], n - 1)
  }

  ghost predicate InForest(parent: map<Id, Id>, x: Id) { exists n :: Climbs(parent, x, n) }

  /** The ancestor k links above x, or where the chain ends. */
  function Up(parent: map<Id, Id>, x: Id, k: nat): (y: Id)
    ensures x in parent ==> y in parent
  {
    if k == 0 then x
    else
      var y := Up(parent, x, k - 1);
      if y in parent && parent[y] in parent then parent[y] else y
  }

  /** x climbs into a cycle: its chain comes back to a node and never leaves the nodes. */
  ghost predicate Caught(parent: map<Id, Id>, x: Id) {
    && x in parent
    && exists i: nat, j: nat :: i < j && Up(parent, x, i) == Up(parent, x, j) && parent[Up(parent, x, j)] in parent
  }

  lemma {:induction false} UpShift(parent: map<Id, Id>, x: Id, k: nat)
    requires x in parent && parent[x] in parent
    ensures Up(parent, x, k + 1) == Up(parent, parent[x], k)
  {
    if k > 0 {
      UpShift(parent, x, k - 1);
    }
  }

  lemma {:induction false} ClimbsUp(parent: map<Id, Id>, x: Id, n: nat, k: nat)
    requires Climbs(parent, x, n) && k <= n
    ensures Climbs(parent, Up(parent, x, k), n - k)
    decreases k
  {
    if k > 0 {
      ClimbsUp(parent, x, n, k - 1);
    }
  }

  lemma {:induction false} ClimbsUnique(parent: map<Id, Id>, x: Id, n: nat, m: nat)
    requires Climbs(parent, x, n) && Climbs(parent, x, m)
    ensures n == m
    decreases n
  {
    if n > 0 {
      ClimbsUnique(parent, parent[x], n - 1, m - 1);
    }
  }

  /** As many different elements as the sequence is long. */
  lemma {:induction false} DistinctFits<T>(s: seq<T>, all: set<T>)
    requires Distinct(s) && forall x <- s :: x in all
    ensures |s| <= |all|
  {
    if s != [] {
      var last := s[|s|-1];
      forall x <- s[..|s|-1] ensures x in all - {last} {
      }
      DistinctFits(s[..|s|-1], all - {last});
    }
  }

  function Chain(parent: map<Id, Id>, x: Id, n: nat): (r: seq<Id>)
    ensures |r| == n && forall i :: 0 <= i < n ==> r[i] == Up(parent, x, i)
  {
    seq(n, i requires 0 <= i < n => Up(parent, x, i))
  }

  /** A chain that ends has no node twice, so it is shorter than the number of nodes. */
  lemma ClimbsShort(parent: map<Id, Id>, x: Id, n: nat)
    requires Climbs(parent, x, n)
    ensures n < |parent|
  {
    var chain := Chain(parent, x, n + 1);
    forall i, j | 0 <= i < j < |chain| ensures chain[i] != chain[j] {
      ClimbsUp(parent, x, n, i);
      ClimbsUp(parent, x, n, j);
      if chain[i] == chain[j] {
        ClimbsUnique(parent, chain[i], n - i, n - j);
      }
    }
    DistinctFits(chain, parent.Keys);
  }

  /** A node is in the forest exactly when its chain is not caught in a cycle. */
  lemma ForestIffNotCaught(parent: map<Id, Id>, x: Id)
    requires x in parent
    ensures InForest(parent, x) <==> !Caught(parent, x)
  {
    if InForest(parent, x) {
      var n: nat :| Climbs(parent, x, n);
      forall i: nat, j: nat | i < j && Up(parent, x, i) == Up(parent, x, j) ensures parent[Up(parent, x, j)] !in parent {
        RepeatsAtEnd(parent, x, n, i, j);
      }
    } else {
      var n := |parent| + 1;
      var chain := Chain(parent, x, n);
      if Distinct(chain) {
        DistinctFits(chain, parent.Keys);
      }
      var i, j :| 0 <= i < j < |chain| && chain[i] == chain[j];
      NeverEnds(parent, x, j);
    }
  }

  lemma RepeatsAtEnd(parent: map<Id, Id>, x: Id, n: nat, i: nat, j: nat)
    requires Climbs(parent, x, n) && i < j && Up(parent, x, i) == Up(parent, x, j)
    ensures parent[Up(parent, x, j)] !in parent
  {
    ClimbsUp(parent, x, n, if j <= n then j else n);
    if j <= n {
      ClimbsUp(parent, x, n, i);
      ClimbsUnique(parent, Up(parent, x, i), n - i, n - j);
    } else {
      StaysAtEnd(parent, x, n, j);
    }
  }

  lemma {:induction false} StaysAtEnd(parent: map<Id, Id>, x: Id, n: nat, j: nat)
    requires x in parent && parent[Up(parent, x, n)] !in parent && n <= j
    ensures Up(parent, x, j) == Up(parent, x, n)
    decreases j
  {
    if n < j {
      StaysAtEnd(parent, x, n, j - 1);
    }
  }

  lemma {:induction false} NeverEnds(parent: map<Id, Id>, x: Id, j: nat)
    requires x in parent && !InForest(parent, x)
    ensures parent[Up(parent, x, j)] in parent
    decreases j
  {
    assert !Climbs(parent, x, 0);
    if j > 0 {
      if InForest(parent, parent[x]) {
        var n: nat :| Climbs(parent, parent[x], n);
        assert Climbs(parent, x, n + 1);
      }
      NeverEnds(parent, parent[x], j - 1);
      UpShift(parent, x, j - 1);
    }
  }

  // ---------------------------------------------------------------- a walk from the roots

  /** Nodes in the order of a walk down from x, at most depth links deep. */
  function Walk(f: Forest, x: Id, depth: nat): seq<Id>
    decreases depth, 0
  {
    [x] + if depth == 0 || x !in f.kids then [] else WalkAll(f, f.kids[x], depth - 1)
  }

  function WalkAll(f: Forest, xs: seq<Id>, depth: nat): seq<Id>
    decreases depth, 1, |xs|
  {
    if xs == [] then [] else Walk(f, xs[0], depth) + WalkAll(f, xs[1..], depth)
  }

  function Times(xs: seq<Id>, y: Id): nat {
    if xs == [] then 0 else (if xs[0] == y then 1 else 0) + Times(xs[1..], y)
  }

  lemma {:induction false} TimesConcat(a: seq<Id>, b: seq<Id>, y: Id)
    ensures Times(a + b, y) == Times(a, y) + Times(b, y)
  {
    if a == [] {
      assert a + b == b;
    } else {
      TimesConcat(a[1..], b, y);
      assert (a + b)[1..] == a[1..] + b;
    }
  }

  /** y, at depth n, lies at or below one of the nodes xs, all at depth d. */
  predicate Below(parent: map<Id, Id>, xs: seq<Id>, d: nat, y: Id, n: nat) {
    n >= d && Up(parent, y, n - d) in xs
  }

  ghost predicate AllAt(parent: map<Id, Id>, xs: seq<Id>, d: nat) { forall x <- xs :: Climbs(parent, x, d) }

  /** A walk from distinct nodes of one depth meets y once if it lies below one of them, else never. */
  lemma {:induction false} WalkAllMeets(f: Forest, xs: seq<Id>, d: nat, depth: nat, y: Id, n: nat)
    requires Linked(f) && Distinct(xs) && AllAt(f.parent, xs, d) && Climbs(f.parent, y, n) && n <= d + depth
    ensures Times(WalkAll(f, xs, depth), y) == One(Below(f.parent, xs, d, y, n))
    decreases depth, 1, |xs|
  {
    if xs != [] {
      WalkMeets(f, xs[0], d, depth, y, n);
      WalkAllMeets(f, xs[1..], d, depth, y, n);
      TimesConcat(Walk(f, xs[0], depth), WalkAll(f, xs[1..], depth), y);
      assert xs == [xs[0]] + xs[1..];
    }
  }

  lemma {:induction false} WalkMeets(f: Forest, x: Id, d: nat, depth: nat, y: Id, n: nat)
    requires Linked(f) && Climbs(f.parent, x, d) && Climbs(f.parent, y, n) && n <= d + depth
    ensures Times(Walk(f, x, depth), y) == One(BelowOne(f.parent, x, d, y, n))
    decreases depth, 0
  {
    if depth == 0 {
      UpMeets(f.parent, x, d, y, n);
    } else {
      WalkAllMeets(f, f.kids[x], d + 1, depth - 1, y, n);
      TimesConcat([x], WalkAll(f, f.kids[x], depth - 1), y);
      KidsMeet(f.parent, f.kids[x], x, d, y, n);
    }
  }

  predicate BelowOne(parent: map<Id, Id>, x: Id, d: nat, y: Id, n: nat) {
    n >= d && Up(parent, y, n - d) == x
  }

  lemma UpMeets(parent: map<Id, Id>, x: Id, d: nat, y: Id, n: nat)
    requires Climbs(parent, x, d) && Climbs(parent, y, n) && n <= d
    ensures BelowOne(parent, x, d, y, n) <==> x == y
  {
    if x == y {
      ClimbsUnique(parent, x, d, n);
    }
  }

  lemma DeeperMeets(parent: map<Id, Id>, kids: seq<Id>, x: Id, d: nat, y: Id, n: nat)
    requires Climbs(parent, x, d) && Climbs(parent, y, n) && n > d
    requires Climbs(parent, Up(parent, y, n - d - 1), d + 1)
    requires Up(parent, y, n - d - 1) in kids <==> parent[Up(parent, y, n - d - 1)] == x
    ensures One(BelowOne(parent, x, d, y, n)) == One(x == y) + One(Below(parent, kids, d + 1, y, n))
  {
    if x == y {
      ClimbsUnique(parent, x, d, n);
    }
  }

  /** Below x means being x or below one child of x. */
  lemma KidsMeet(parent: map<Id, Id>, kids: seq<Id>, x: Id, d: nat, y: Id, n: nat)
    requires Climbs(parent, x, d) && Climbs(parent, y, n)
    requires n > d ==> (Up(parent, y, n - d - 1) in kids <==> parent[Up(parent, y, n - d - 1)] == x)
    ensures One(BelowOne(parent, x, d, y, n)) == One(x == y) + One(Below(parent, kids, d + 1, y, n))
  {
    if n > d {
      ClimbsUp(parent, y, n, n - d - 1);
      DeeperMeets(parent, kids, x, d, y, n);
    } else {
      UpMeets(parent, x, d, y, n);
    }
  }

  /** The walk over the whole forest. */
  function Everything(f: Forest): seq<Id> { WalkAll(f, f.roots, |f.parent|) }

  lemma {:induction false} WalkStaysInForest(f: Forest, xs: seq<Id>, depth: nat, y: Id)
    requires Linked(f) && (forall x <- xs :: InForest(f.parent, x)) && y in WalkAll(f, xs, depth)
    ensures InForest(f.parent, y)
    decreases depth, |xs|
  {
    var x := xs[0];
    assert InForest(f.parent, x);
    if y in WalkAll(f, xs[1..], depth) {
      WalkStaysInForest(f, xs[1..], depth, y);
    } else if y != x {
      var n: nat :| Climbs(f.parent, x, n);
      forall k <- f.kids[x] ensures InForest(f.parent, k) {
        assert Climbs(f.parent, k, n + 1);
      }
      WalkStaysInForest(f, f.kids[x], depth - 1, y);
    }
  }

  lemma {:induction false} TimesMember(xs: seq<Id>, y: Id)
    ensures Times(xs, y) > 0 <==> y in xs
  {
    if xs != [] {
      TimesMember(xs[1..], y);
    }
  }

  /** From the roots one sees every node that is not caught in a cycle exactly once, and no other. */
  lemma ForestSeenOnce(f: Forest, y: Id)
    requires Linked(f)
    ensures Times(Everything(f), y) == One(InForest(f.parent, y))
  {
    forall x <- f.roots ensures Climbs(f.parent, x, 0) {
    }
    if InForest(f.parent, y) {
      var n: nat :| Climbs(f.parent, y, n);
      ClimbsShort(f.parent, y, n);
      WalkAllMeets(f, f.roots, 0, |f.parent|, y, n);
      ClimbsUp(f.parent, y, n, n);
    } else {
      forall x <- f.roots ensures InForest(f.parent, x) {
        assert Climbs(f.parent, x, 0);
      }
      if y in Everything(f) {
        WalkStaysInForest(f, f.roots, |f.parent|, y);
      }
      TimesMember(Everything(f), y);
    }
  }

  // ---------------------------------------------------------------- token totals

  const NoTokens := Tokens(0, 0, 0, 0)

  function Add(a: Tokens, b: Tokens): Tokens {
    Tokens(a.prompt + b.prompt, a.completion + b.completion, a.cacheRead + b.cacheRead, a.cacheWrite + b.cacheWrite)
  }

  lemma AddAssoc(a: Tokens, b: Tokens, c: Tokens)
    ensures Add(a, Add(b, c)) == Add(Add(a, b), c)
  {
  }

  lemma AddSwap(a: Tokens, b: Tokens, c: Tokens)
    ensures Add(a, Add(b, c)) == Add(b, Add(a, c))
  {
  }

  lemma AddZero(a: Tokens)
    ensures Add(a, NoTokens) == a && Add(NoTokens, a) == a
  {
  }

  function Counted(s: Span): Tokens { if s.llm then s.tokens else NoTokens }

  /** Tokens of a node; placeholders have none. */
  function TokensOf(spans: seq<Span>, x: Id): Tokens {
    if spans == [] then NoTokens else if spans[0].id == x then Counted(spans[0]) else TokensOf(spans[1..], x)
  }

  function Sum(spans: seq<Span>, xs: seq<Id>): Tokens {
    if xs == [] then NoTokens else Add(TokensOf(spans, xs[0]), Sum(spans, xs[1..]))
  }

  lemma SumCons(spans: seq<Span>, x: Id, xs: seq<Id>)
    ensures Sum(spans, [x] + xs) == Add(TokensOf(spans, x), Sum(spans, xs))
  {
    assert ([x] + xs)[1..] == xs;
  }

  lemma {:induction false} SumConcat(spans: seq<Span>, a: seq<Id>, b: seq<Id>)
    ensures Sum(spans, a + b) == Add(Sum(spans, a), Sum(spans, b))
  {
    if a == [] {
      assert a + b == b;
      AddZero(Sum(spans, b));
    } else {
      var rest := a[1..] + b;
      assert a + b == [a[0]] + rest;
      SumCons(spans, a[0], rest);
      SumConcat(spans, a[1..], b);
      AddAssoc(TokensOf(spans, a[0]), Sum(spans, a[1..]), Sum(spans, b));
    }
  }

  lemma KidsAt(f: Forest, x: Id, d: nat)
    requires Linked(f) && Climbs(f.parent, x, d)
    ensures x in f.kids && AllAt(f.parent, f.kids[x], d + 1)
  {
  }

  /** The totals shown for a node: its own tokens and those of its children, recursively. */
  method TreeLlmStats(spans: seq<Span>, f: Forest, x: Id, ghost d: nat) returns (total: Tokens)
    requires Linked(f) && Climbs(f.parent, x, d)
    ensures d < |f.parent| && total == Sum(spans, Walk(f, x, |f.parent| - d))
    decreases |f.parent| - d, 1
  {
    ClimbsShort(f.parent, x, d);
    KidsAt(f, x, d);
    var below := ChildStats(spans, f, f.kids[x], d + 1);
    total := Add(TokensOf(spans, x), below);
    SumCons(spans, x, WalkAll(f, f.kids[x], |f.parent| - d - 1));
  }

  /** The loop over the children. */
  method ChildStats(spans: seq<Span>, f: Forest, kids: seq<Id>, ghost d: nat) returns (total: Tokens)
    requires Linked(f) && AllAt(f.parent, kids, d) && d <= |f.parent|
    ensures total == Sum(spans, WalkAll(f, kids, |f.parent| - d))
    decreases |f.parent| - d, 2
  {
    total := NoTokens;
    for i := 0 to |kids|
      invariant total == Sum(spans, WalkAll(f, kids[..i], |f.parent| - d))
    {
      var one := TreeLlmStats(spans, f, kids[i], d);
      total := Add(total, one);
      WalkSnoc(f, kids, i, |f.parent| - d);
      SumConcat(spans, WalkAll(f, kids[..i], |f.parent| - d), Walk(f, kids[i], |f.parent| - d));
    }
    assert kids[..|kids|] == kids;
  }

  lemma {:induction false} WalkSnoc(f: Forest, xs: seq<Id>, i: nat, depth: nat)
    requires i < |xs|
    ensures WalkAll(f, xs[..i+1], depth) == WalkAll(f, xs[..i], depth) + Walk(f, xs[i], depth)
  {
    if i == 0 {
      assert xs[..1] == [xs[0]] && xs[..0] == [];
    } else {
      WalkSnoc(f, xs[1..], i - 1, depth);
      assert xs[1..][..i] == xs[..i+1][1..] && xs[1..][..i-1] == xs[..i][1..];
      ConcatAssoc(Walk(f, xs[0], depth), WalkAll(f, xs[1..][..i-1], depth), Walk(f, xs[i], depth));
    }
  }

  function Total(spans: seq<Span>): Tokens {
    if spans == [] then NoTokens else Add(Counted(spans[0]), Total(spans[1..]))
  }

  /** One more span adds its four counters if it is an LLM call, and otherwise nothing. */
  lemma {:induction false} TotalGrows(spans: seq<Span>, s: Span)
    ensures Total([]).prompt == Total([]).completion == Total([]).cacheRead == Total([]).cacheWrite == 0
    ensures !s.llm ==> Total(spans + [s]) == Total(spans)
    ensures s.llm ==> var (t, u) := (Total(spans), Total(spans + [s]));
      && u.prompt == t.prompt + s.tokens.prompt && u.completion == t.completion + s.tokens.completion
      && u.cacheRead == t.cacheRead + s.tokens.cacheRead && u.cacheWrite == t.cacheWrite + s.tokens.cacheWrite
  {
    if spans == [] {
      assert [s][1..] == [] && [] + [s] == [s];
    } else {
      TotalGrows(spans[1..], s);
      assert (spans + [s])[1..] == spans[1..] + [s];
    }
  }

  lemma TotalFrom(spans: seq<Span>, i: nat, sofar: Tokens)
    requires i < |spans|
    ensures Add(sofar, Total(spans[i..])) == Add(Add(sofar, Counted(spans[i])), Total(spans[i+1..]))
  {
    assert spans[i..][1..] == spans[i+1..];
    AddAssoc(sofar, Counted(spans[i]), Total(spans[i+1..]));
  }

  /** The totals over all spans of the list. */
  method AggregateLlmStats(spans: seq<Span>) returns (total: Tokens)
    ensures total == Total(spans)
  {
    total := NoTokens;
    assert spans[0..] == spans;
    AddZero(Total(spans));
    for i := 0 to |spans|
      invariant Add(total, Total(spans[i..])) == Total(spans)
    {
      TotalFrom(spans, i, total);
      total := Add(total, if spans[i].llm then spans[i].tokens else NoTokens);
    }
    assert spans[|spans|..] == [];
    AddZero(total);
  }

  /** The same elements add up to the same totals. */
  lemma {:induction false} SumPermuted(spans: seq<Span>, a: seq<Id>, b: seq<Id>)
    requires forall y :: Times(a, y) == Times(b, y)
    ensures Sum(spans, a) == Sum(spans, b)
  {
    if a == [] {
      if b != [] {
        TimesMember(b, b[0]);
      }
    } else {
      assert Times(a, a[0]) == Times(b, a[0]);
      TimesMember(b, a[0]);
      var i :| 0 <= i < |b| && b[i] == a[0];
      var rest := b[..i] + b[i+1..];
      Removed(spans, b, i);
      forall y ensures Times(a[1..], y) == Times(rest, y) {
        assert Times(a, y) == Times(b, y);
        RemovedTimes(b, i, y);
      }
      SumPermuted(spans, a[1..], rest);
    }
  }

  lemma RemovedTimes(b: seq<Id>, i: nat, y: Id)
    requires i < |b|
    ensures Times(b, y) == One(b[i] == y) + Times(b[..i] + b[i+1..], y)
  {
    assert b == b[..i] + ([b[i]] + b[i+1..]);
    TimesConcat(b[..i], [b[i]] + b[i+1..], y);
    TimesConcat(b[..i], b[i+1..], y);
  }

  lemma Removed(spans: seq<Span>, b: seq<Id>, i: nat)
    requires i < |b|
    ensures Sum(spans, b) == Add(TokensOf(spans, b[i]), Sum(spans, b[..i] + b[i+1..]))
  {
    assert b == b[..i] + ([b[i]] + b[i+1..]);
    SumConcat(spans, b[..i], [b[i]] + b[i+1..]);
    SumConcat(spans, b[..i], b[i+1..]);
    SumCons(spans, b[i], b[i+1..]);
    AddSwap(Sum(spans, b[..i]), TokensOf(spans, b[i]), Sum(spans, b[i+1..]));
  }

  // ---------------------------------------------------------------- conservation

  /** The spans that are, or are not, in the forest. */
  ghost function Part(f: Forest, spans: seq<Span>, inForest: bool): seq<Span> {
    if spans == [] then []
    else (if InForest(f.parent, spans[0].id) == inForest then [spans[0]] else []) + Part(f, spans[1..], inForest)
  }

  lemma {:induction false} PartMembers(f: Forest, spans: seq<Span>, inForest: bool)
    requires Distinct(SpanIds(spans))
    ensures forall x :: x in SpanIds(Part(f, spans, inForest)) <==> x in SpanIds(spans) && InForest(f.parent, x) == inForest
    ensures Distinct(SpanIds(Part(f, spans, inForest)))
    ensures forall s <- Part(f, spans, inForest) :: s in spans
  {
    if spans != [] {
      var (rest, ids) := (spans[1..], SpanIds(spans));
      assert ids == [spans[0].id] + SpanIds(rest);
      assert SpanIds(rest) == ids[1..];
      PartMembers(f, rest, inForest);
      assert spans[0].id !in SpanIds(rest);
      var kept := Part(f, rest, inForest);
      if InForest(f.parent, spans[0].id) == inForest {
        assert Part(f, spans, inForest) == [spans[0]] + kept;
        assert SpanIds([spans[0]] + kept) == [spans[0].id] + SpanIds(kept);
      } else {
        assert Part(f, spans, inForest) == [] + kept == kept;
      }
    }
  }

  lemma PartCons(f: Forest, spans: seq<Span>, inForest: bool)
    requires spans != []
    ensures Total(Part(f, spans, inForest)) ==
      if InForest(f.parent, spans[0].id) == inForest then Add(Counted(spans[0]), Total(Part(f, spans[1..], inForest)))
      else Total(Part(f, spans[1..], inForest))
  {
    var rest := Part(f, spans[1..], inForest);
    if InForest(f.parent, spans[0].id) == inForest {
      assert Part(f, spans, inForest) == [spans[0]] + rest;
    } else {
      assert Part(f, spans, inForest) == [] + rest == rest;
    }
  }

  lemma {:induction false} PartsAddUp(f: Forest, spans: seq<Span>)
    ensures Add(Total(Part(f, spans, true)), Total(Part(f, spans, false))) == Total(spans)
  {
    if spans == [] {
      AddZero(NoTokens);
    } else {
      var (a, b) := (Part(f, spans[1..], true), Part(f, spans[1..], false));
      PartsAddUp(f, spans[1..]);
      PartCons(f, spans, true);
      PartCons(f, spans, false);
      AddAssoc(Counted(spans[0]), Total(a), Total(b));
      AddSwap(Counted(spans[0]), Total(a), Total(b));
    }
  }

  lemma {:induction false} TokensFound(spans: seq<Span>, s: Span)
    requires Distinct(SpanIds(spans)) && s in spans
    ensures TokensOf(spans, s.id) == Counted(s)
  {
    assert SpanIds(spans)[1..] == SpanIds(spans[1..]);
    if spans[0] != s {
      var i :| 0 < i < |spans| && spans[i] == s;
      assert SpanIds(spans)[0] != SpanIds(spans)[i];
      TokensFound(spans[1..], s);
    }
  }

  lemma {:induction false} NoTokensFound(spans: seq<Span>, x: Id)
    requires x !in SpanIds(spans)
    ensures TokensOf(spans, x) == NoTokens
  {
    if spans != [] {
      assert SpanIds(spans) == [spans[0].id] + SpanIds(spans[1..]);
      NoTokensFound(spans[1..], x);
    }
  }

  lemma {:induction false} SumIsTotal(spans: seq<Span>, part: seq<Span>)
    requires Distinct(SpanIds(spans)) && forall s <- part :: s in spans
    ensures Sum(spans, SpanIds(part)) == Total(part)
  {
    if part != [] {
      assert SpanIds(part)[1..] == SpanIds(part[1..]);
      TokensFound(spans, part[0]);
      SumIsTotal(spans, part[1..]);
    }
  }

  lemma {:induction false} SumIsZero(spans: seq<Span>, xs: seq<Id>)
    requires forall x <- xs :: x !in SpanIds(spans)
    ensures Sum(spans, xs) == NoTokens
  {
    if xs != [] {
      NoTokensFound(spans, xs[0]);
      SumIsZero(spans, xs[1..]);
    }
  }

  /** Placeholders are roots or hang below one. */
  lemma PlaceholdersClimb(spans: seq<Span>, ps: seq<Placeholder>, f: Forest, h: Placeholder)
    requires Identified(spans) && Covers(spans, ps, f) && h in ps
    ensures Climbs(f.parent, h.id, if f.parent[h.id] == NoId then 0 else 1)
  {
    var first := NestedTwice(ps, h);
    assert NoId !in f.parent;
    assert f.parent[first.id] == NoId && f.parent[h.id] == if h.id == first.id then NoId else first.id;
  }

  /** A placeholder's parent is a placeholder without one. */
  lemma NestedTwice(ps: seq<Placeholder>, h: Placeholder) returns (first: Placeholder)
    requires h in ps
    ensures first in ps && NestedParent(ps, first) == NoId
    ensures NestedParent(ps, h) == if h.id == first.id then NoId else first.id
  {
    InTraceMembers(ps, h.trace);
    first := Earliest(InTrace(ps, h.trace));
  }

  lemma {:induction false} DistinctTimes(xs: seq<Id>, y: Id)
    requires Distinct(xs)
    ensures Times(xs, y) == One(y in xs)
  {
    if xs != [] {
      DistinctTimes(xs[1..], y);
      assert xs == [xs[0]] + xs[1..];
    }
  }

  /** The totals of the trees below the roots are the totals of all spans less those caught in cycles: for
      acyclic input nothing is lost. */
  lemma TokensConserved(spans: seq<Span>, ps: seq<Placeholder>, f: Forest)
    requires Identified(spans) && IsForest(f) && Covers(spans, ps, f)
    ensures Add(Sum(spans, Everything(f)), Total(Part(f, spans, false))) == Total(spans)
    ensures (forall s <- spans :: InForest(f.parent, s.id)) ==> Sum(spans, Everything(f)) == Total(spans)
  {
    var part := Part(f, spans, true);
    var listed := SpanIds(part) + PlaceholderIds(ps);
    PartMembers(f, spans, true);
    PartMembers(f, spans, false);
    NodeOrder(spans, ps);
    ListedOnce(spans, ps, f);
    forall y ensures Times(listed, y) == Times(Everything(f), y) {
      ForestSeenOnce(f, y);
      DistinctTimes(listed, y);
    }
    SumPermuted(spans, Everything(f), listed);
    SumConcat(spans, SpanIds(part), PlaceholderIds(ps));
    SumIsTotal(spans, part);
    SumIsZero(spans, PlaceholderIds(ps));
    AddZero(Total(part));
    PartsAddUp(f, spans);
    if forall s <- spans :: InForest(f.parent, s.id) {
      NothingCaught(f, spans);
      AddZero(Total(part));
    }
  }

  /** The loop over the roots. */
  method RootStats(spans: seq<Span>, f: Forest) returns (total: Tokens)
    requires Linked(f)
    ensures total == Sum(spans, Everything(f))
  {
    total := ChildStats(spans, f, f.roots, 0);
  }

  /** Both totals, computed: what the trees show and what the list shows. */
  method BothTotals(spans: seq<Span>) returns (f: Forest, trees: Tokens, all: Tokens)
    requires Identified(spans)
    ensures IsForest(f) && Add(trees, Total(Part(f, spans, false))) == all
    ensures (forall s <- spans :: InForest(f.parent, s.id)) ==> trees == all
  {
    ghost var ps;
    f, ps := BuildSpanTree(spans);
    TokensConserved(spans, ps, f);
    trees := RootStats(spans, f);
    all := AggregateLlmStats(spans);
  }

  lemma {:induction false} NothingCaught(f: Forest, spans: seq<Span>)
    requires forall s <- spans :: InForest(f.parent, s.id)
    ensures Part(f, spans, false) == []
  {
    if spans != [] {
      NothingCaught(f, spans[1..]);
    }
  }

  lemma ListedOnce(spans: seq<Span>, ps: seq<Placeholder>, f: Forest)
    requires Identified(spans) && Covers(spans, ps, f)
    ensures var listed := SpanIds(Part(f, spans, true)) + PlaceholderIds(ps);
      Distinct(listed) && forall y :: y in listed <==> InForest(f.parent, y)
  {
    var (a, b) := (SpanIds(Part(f, spans, true)), PlaceholderIds(ps));
    PartMembers(f, spans, true);
    NodeOrder(spans, ps);
    DistinctConcat(a, b);
    forall y ensures y in a + b <==> InForest(f.parent, y) {
      ListedIff(spans, ps, f, y);
    }
  }

  lemma ListedIff(spans: seq<Span>, ps: seq<Placeholder>, f: Forest, y: Id)
    requires Identified(spans) && Covers(spans, ps, f)
    ensures (y in SpanIds(spans) && InForest(f.parent, y)) || y in PlaceholderIds(ps) <==> InForest(f.parent, y)
  {
    NodeOrder(spans, ps);
    if y in PlaceholderIds(ps) {
      var i :| 0 <= i < |ps| && PlaceholderIds(ps)[i] == y;
      PlaceholdersClimb(spans, ps, f, ps[i]);
    } else if InForest(f.parent, y) {
      assert y in f.parent;
    }
  }
}

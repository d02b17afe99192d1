/** The viewer's span tree: built from a flat list in which parents may be missing and links may be cyclic. */
module SpanForest {
  import opened Sorting

  /** Ids of spans and traces are only compared, so numbers stand for them. */
  type Id = nat

  /** The empty id: a span without a parent. */
  const NoId: Id := 0

  datatype Tokens = Tokens(prompt: int, completion: int, cacheRead: int, cacheWrite: int)

  /** llm: the span is an LLM call, by kind or by name. */
  datatype Span = Span(trace: Id, id: Id, parent: Id, start: int, llm: bool, tokens: Tokens)

  datatype Placeholder = Placeholder(id: Id, trace: Id, start: int)

  /** Every node's start time, parent id and children, and the roots. */
  datatype Forest = Forest(start: map<Id, int>, parent: map<Id, Id>, kids: map<Id, seq<Id>>, roots: seq<Id>)

  function SpanIds(spans: seq<Span>): (r: seq<Id>)
    ensures |r| == |spans| && forall i :: 0 <= i < |r| ==> r[i] == spans[i].id
  {
    seq(|spans|, i requires 0 <= i < |spans| => spans[i].id)
  }

  function PlaceholderIds(ps: seq<Placeholder>): (r: seq<Id>)
    ensures |r| == |ps| && forall i :: 0 <= i < |r| ==> r[i] == ps[i].id
  {
    seq(|ps|, i requires 0 <= i < |ps| => ps[i].id)
  }

  // ---------------------------------------------------------------- placeholders for missing parents

  function KidsNaming(spans: seq<Span>, p: Id): seq<Span> {
    if spans == [] then []
    else KidsNaming(spans[..|spans|-1], p) + if spans[|spans|-1].parent == p then [spans[|spans|-1]] else []
  }

  predicate IsMissing(spans: seq<Span>, p: Id) { p != NoId && p !in SpanIds(spans) && KidsNaming(spans, p) != [] }

  function MinStart(spans: seq<Span>): (m: int)
    requires spans != []
    ensures (exists s <- spans :: s.start == m) && forall s <- spans :: m <= s.start
  {
    if |spans| == 1 then spans[0].start
    else
      var m := MinStart(spans[1..]);
      assert spans == [spans[0]] + spans[1..];
      if spans[0].start <= m then spans[0].start else m
  }

  /** The placeholder stands for p: the trace of the first span naming it, the earliest start of all that do. */
  predicate StandsFor(spans: seq<Span>, h: Placeholder, p: Id) {
    && IsMissing(spans, p) && h.id == p
    && h.trace == KidsNaming(spans, p)[0].trace && h.start == MinStart(KidsNaming(spans, p))
  }

  /** A span names p before any span names q. */
  ghost predicate NamedBefore(spans: seq<Span>, p: Id, q: Id) {
    exists a :: 0 <= a < |spans| && spans[a].parent == p && forall b :: 0 <= b <= a ==> spans[b].parent != q
  }

  ghost predicate NamedInOrder(spans: seq<Span>, ids: seq<Id>) {
    forall i, j :: 0 <= i < j < |ids| ==> NamedBefore(spans, ids[i], ids[j])
  }

  /** One placeholder for every missing parent, and no other, in the order in which they are named. */
  ghost predicate Collected(spans: seq<Span>, ps: seq<Placeholder>) {
    && Distinct(PlaceholderIds(ps)) && NamedInOrder(spans, PlaceholderIds(ps))
    && (forall h <- ps :: StandsFor(spans, h, h.id))
    && forall p :: IsMissing(spans, p) ==> p in PlaceholderIds(ps)
  }

  lemma {:induction false} KidsName(spans: seq<Span>, p: Id)
    ensures forall s :: s in KidsNaming(spans, p) <==> s in spans && s.parent == p
    ensures KidsNaming(spans, p) != [] ==>
      exists a :: 0 <= a < |spans| && spans[a] == KidsNaming(spans, p)[0] && forall b :: 0 <= b < a ==> spans[b].parent != p
  {
    if spans != [] {
      var front := spans[..|spans|-1];
      assert spans == front + [spans[|spans|-1]];
      KidsName(front, p);
      if KidsNaming(front, p) == [] {
        assert forall b :: 0 <= b < |front| ==> spans[b] in front;
      } else {
        var a :| 0 <= a < |front| && front[a] == KidsNaming(front, p)[0] && forall b :: 0 <= b < a ==> front[b].parent != p;
        assert spans[a] == KidsNaming(spans, p)[0];
      }
    }
  }

  /** A placeholder has an id that spans name as their parent and none has itself, the trace of the first span
      that names it, and the earliest start of those that do. */
  lemma PlaceholderIs(spans: seq<Span>, ps: seq<Placeholder>, h: Placeholder)
    requires Collected(spans, ps) && h in ps
    ensures h.id != NoId && forall s <- spans :: s.id != h.id
    ensures exists a ::
      0 <= a < |spans| && spans[a].parent == h.id && spans[a].trace == h.trace && forall b :: 0 <= b < a ==> spans[b].parent != h.id
    ensures (exists s <- spans :: s.parent == h.id && s.start == h.start)
    ensures forall s <- spans :: s.parent == h.id ==> h.start <= s.start
  {
    assert StandsFor(spans, h, h.id);
    KidsName(spans, h.id);
    forall s <- spans ensures s.id != h.id {
      var i :| 0 <= i < |spans| && spans[i] == s;
      assert SpanIds(spans)[i] == s.id;
    }
  }

  lemma NextName(spans: seq<Span>, i: nat, order: seq<Id>, next: seq<Id>)
    requires i < |spans| && NamedInOrder(spans[..i], order) && forall p <- order :: KidsNaming(spans[..i], p) != []
    requires next == order || (next == order + [spans[i].parent] && KidsNaming(spans[..i], spans[i].parent) == [])
    ensures NamedInOrder(spans[..i+1], next)
  {
    var (was, now) := (spans[..i], spans[..i+1]);
    forall j, k | 0 <= j < k < |next| ensures NamedBefore(now, next[j], next[k]) {
      assert next[j] == order[j];
      if k < |order| {
        assert NamedBefore(was, order[j], order[k]);
        var a :| 0 <= a < |was| && was[a].parent == order[j] && forall b :: 0 <= b <= a ==> was[b].parent != order[k];
        assert now[a] == was[a] && forall b :: 0 <= b <= a ==> now[b] == was[b];
      } else {
        KidsName(was, order[j]);
        KidsName(was, next[k]);
        assert KidsNaming(was, order[j])[0] in was;
        var a :| 0 <= a < |was| && was[a].parent == order[j];
        assert forall b :: 0 <= b <= a ==> now[b] == was[b] && was[b] in was;
        assert now[a].parent == next[j];
      }
    }
  }

  lemma NextNaming(spans: seq<Span>, i: nat)
    requires i < |spans|
    ensures forall p :: KidsNaming(spans[..i+1], p) == KidsNaming(spans[..i], p) + (if spans[i].parent == p then [spans[i]] else [])
  {
    assert spans[..i+1][..i] == spans[..i];
  }

  /** Note one span under the parent it names, if that is missing. */
  method NoteParent(ids: set<Id>, span: Span, order0: seq<Id>, missing0: map<Id, seq<Span>>)
    returns (order: seq<Id>, missing: map<Id, seq<Span>>)
    requires Distinct(order0) && forall p <- order0 :: p in missing0
    ensures Distinct(order) && forall p <- order :: p in missing
    ensures var pid := span.parent;
      if pid == NoId || pid in ids then order == order0 && missing == missing0
      else
        && order == (if pid in order0 then order0 else order0 + [pid])
        && (forall p :: p in order <==> p in order0 || p == pid)
        && (forall p <- order :: missing[p] == (if p in order0 then missing0[p] else []) + (if p == pid then [span] else []))
  {
    order, missing := order0, missing0;
    var pid := span.parent;
    if pid != NoId && pid !in ids {
      if pid !in order {
        order := order + [pid];
        missing := missing[pid := []];
      }
      missing := missing[pid := missing[pid] + [span]];
    }
  }

  /** Spans by missing parent id, and the ids in order of appearance. */
  method MissingParents(spans: seq<Span>) returns (order: seq<Id>, missing: map<Id, seq<Span>>)
    ensures Distinct(order) && NamedInOrder(spans, order) && forall p :: p in order <==> IsMissing(spans, p)
    ensures forall p <- order :: p in missing && missing[p] == KidsNaming(spans, p)
  {
    order, missing := [], map[];
    var ids := set s | s in spans :: s.id;
    for i := 0 to |spans|
      invariant Distinct(order) && NamedInOrder(spans[..i], order)
      invariant forall p :: p in order <==> p != NoId && p !in ids && KidsNaming(spans[..i], p) != []
      invariant forall p <- order :: p in missing && missing[p] == KidsNaming(spans[..i], p)
    {
      NextNaming(spans, i);
      ghost var before := order;
      order, missing := NoteParent(ids, spans[i], order, missing);
      NextName(spans, i, before, order);
    }
    assert spans[..|spans|] == spans;
  }

  method Placeholders(spans: seq<Span>) returns (ps: seq<Placeholder>)
    ensures Collected(spans, ps)
  {
    var order, missing := MissingParents(spans);
    ps := [];
    for i := 0 to |order|
      invariant |ps| == i && forall j :: 0 <= j < i ==> StandsFor(spans, ps[j], order[j])
    {
      var pid := order[i];
      assert pid in order;
      var kids := missing[pid];
      ps := ps + [Placeholder(pid, kids[0].trace, MinStart(kids))];
    }
    assert PlaceholderIds(ps) == order;
  }

  // ---------------------------------------------------------------- placeholders of one trace hang together

  function InTrace(ps: seq<Placeholder>, trace: Id): seq<Placeholder> {
    if ps == [] then []
    else InTrace(ps[..|ps|-1], trace) + if ps[|ps|-1].trace == trace then [ps[|ps|-1]] else []
  }

  /** The earliest placeholder, the first of them if several start at once. */
  function Earliest(ps: seq<Placeholder>): (h: Placeholder)
    requires ps != []
    ensures h in ps && forall g <- ps :: h.start <= g.start
  {
    if |ps| == 1 then ps[0]
    else
      var h := Earliest(ps[1..]);
      assert ps == [ps[0]] + ps[1..];
      if ps[0].start <= h.start then ps[0] else h
  }

  function PlaceholderStart(h: Placeholder): int { h.start }

  lemma {:induction false} SortedFirst(ps: seq<Placeholder>)
    requires ps != []
    ensures SortBy(PlaceholderStart, ps) != [] && SortBy(PlaceholderStart, ps)[0] == Earliest(ps)
  {
    if |ps| > 1 {
      SortedFirst(ps[1..]);
    } else {
      assert SortBy(PlaceholderStart, ps[1..]) == [];
    }
  }

  lemma {:induction false} InTraceMembers(ps: seq<Placeholder>, trace: Id)
    ensures forall h :: h in InTrace(ps, trace) <==> h in ps && h.trace == trace
  {
    if ps != [] {
      assert ps == ps[..|ps|-1] + [ps[|ps|-1]];
      InTraceMembers(ps[..|ps|-1], trace);
    }
  }

  function HungBelow(top: Id, id: Id): Id { if id == top then NoId else top }

  /** The earliest placeholder of a trace is a root, the others hang below it. */
  function NestedParent(ps: seq<Placeholder>, h: Placeholder): Id {
    var group := InTrace(ps, h.trace);
    if group == [] then NoId else HungBelow(Earliest(group).id, h.id)
  }

  ghost predicate DistinctIds(ps: seq<Placeholder>) { forall g, h :: g in ps && h in ps && g.id == h.id ==> g == h }

  /** All but the first get the first as their parent. */
  method HangBelow(sorted: seq<Placeholder>, parent: map<Id, Id>) returns (nested: map<Id, Id>)
    requires sorted != [] && forall h <- sorted :: h.id in parent
    ensures nested.Keys == parent.Keys
    ensures forall j :: 1 <= j < |sorted| ==> sorted[j].id in nested && nested[sorted[j].id] == sorted[0].id
    ensures forall p <- parent :: (forall j :: 1 <= j < |sorted| ==> sorted[j].id != p) ==> nested[p] == parent[p]
  {
    nested := parent;
    var rootPid := sorted[0].id;
    for i := 1 to |sorted|
      invariant nested.Keys == parent.Keys
      invariant forall j :: 1 <= j < i ==> sorted[j].id in nested && nested[sorted[j].id] == rootPid
      invariant forall p <- parent :: (forall j :: 1 <= j < i ==> sorted[j].id != p) ==> nested[p] == parent[p]
    {
      assert sorted[i] in sorted;
      nested := nested[sorted[i].id := rootPid];
    }
  }

  method NestGroup(group: seq<Placeholder>, parent: map<Id, Id>) returns (nested: map<Id, Id>)
    requires group != [] && Distinct(group) && DistinctIds(group)
    requires forall h <- group :: h.id in parent && parent[h.id] == NoId
    ensures nested.Keys == parent.Keys
    ensures forall h <- group :: nested[h.id] == HungBelow(Earliest(group).id, h.id)
    ensures forall p <- parent :: p !in PlaceholderIds(group) ==> nested[p] == parent[p]
  {
    nested := parent;
    if |group| > 1 {
      var sorted := SortBy(PlaceholderStart, group);
      SortedFirst(group);
      SortMembers(PlaceholderStart, group);
      SortDistinct(PlaceholderStart, group);
      nested := HangBelow(sorted, parent);
      NestedAll(group, sorted, parent, nested);
    } else {
      assert group[0] in group;
    }
  }

  lemma NestedAll(group: seq<Placeholder>, sorted: seq<Placeholder>, parent: map<Id, Id>, nested: map<Id, Id>)
    requires group != [] && sorted != [] && sorted[0] == Earliest(group) && Distinct(sorted) && DistinctIds(group)
    requires (forall h :: h in sorted <==> h in group) && nested.Keys == parent.Keys
    requires forall h <- group :: h.id in parent && parent[h.id] == NoId
    requires forall j :: 1 <= j < |sorted| ==> sorted[j].id in nested && nested[sorted[j].id] == sorted[0].id
    requires forall p <- parent :: (forall j :: 1 <= j < |sorted| ==> sorted[j].id != p) ==> nested[p] == parent[p]
    ensures forall h <- group :: nested[h.id] == HungBelow(Earliest(group).id, h.id)
    ensures forall p <- parent :: p !in PlaceholderIds(group) ==> nested[p] == parent[p]
  {
    forall h <- group ensures nested[h.id] == HungBelow(Earliest(group).id, h.id) {
    }
    forall p <- parent | p !in PlaceholderIds(group) ensures nested[p] == parent[p] {
      forall j | 1 <= j < |sorted| ensures sorted[j].id != p {
        assert sorted[j] in group;
        var k :| 0 <= k < |group| && group[k] == sorted[j];
        assert PlaceholderIds(group)[k] == sorted[j].id;
      }
    }
  }

  lemma {:induction false} InTraceDistinct(ps: seq<Placeholder>, trace: Id)
    requires Distinct(ps)
    ensures Distinct(InTrace(ps, trace))
  {
    if ps != [] {
      InTraceDistinct(ps[..|ps|-1], trace);
      InTraceMembers(ps[..|ps|-1], trace);
      assert ps[|ps|-1] !in ps[..|ps|-1];
    }
  }

  method GroupByTrace(ps: seq<Placeholder>) returns (groups: map<Id, seq<Placeholder>>)
    ensures forall t :: t in groups <==> InTrace(ps, t) != []
    ensures forall t <- groups :: groups[t] == InTrace(ps, t)
  {
    groups := map[];
    for i := 0 to |ps|
      invariant forall t :: t in groups <==> InTrace(ps[..i], t) != []
      invariant forall t <- groups :: groups[t] == InTrace(ps[..i], t)
    {
      assert ps[..i+1][..i] == ps[..i];
      var t := ps[i].trace;
      groups := groups[t := (if t in groups then groups[t] else []) + [ps[i]]];
    }
    assert ps[..|ps|] == ps;
  }

  lemma EachIdListed(ps: seq<Placeholder>)
    ensures forall h <- ps :: h.id in PlaceholderIds(ps)
  {
    forall h <- ps ensures h.id in PlaceholderIds(ps) {
      var k :| 0 <= k < |ps| && ps[k] == h;
      assert PlaceholderIds(ps)[k] == h.id;
    }
  }

  /** Nest one trace: top is its earliest placeholder. */
  method NestTrace(ghost ps: seq<Placeholder>, ghost t: Id, group: seq<Placeholder>, parent: map<Id, Id>, ghost top: Id)
    returns (nested: map<Id, Id>)
    requires Distinct(PlaceholderIds(ps)) && group == InTrace(ps, t) != [] && top == Earliest(group).id
    requires forall h <- ps :: h.id in parent && (h.trace == t ==> parent[h.id] == NoId)
    ensures nested.Keys == parent.Keys
    ensures forall h <- ps :: nested[h.id] == if h.trace != t then parent[h.id] else HungBelow(top, h.id)
  {
    InTraceMembers(ps, t);
    InTraceDistinct(ps, t);
    nested := NestGroup(group, parent);
    GroupDone(ps, t, parent, nested);
  }

  /** Nest every trace, in any order. */
  method NestAll(ghost ps: seq<Placeholder>, groups: map<Id, seq<Placeholder>>, parent: map<Id, Id>, ghost tops: map<Id, Id>)
    returns (nested: map<Id, Id>)
    requires Distinct(PlaceholderIds(ps)) && tops.Keys == groups.Keys
    requires forall t {:trigger groups[t]} :: t in groups ==> groups[t] == InTrace(ps, t) != [] && tops[t] == Earliest(groups[t]).id
    requires forall h <- ps :: h.trace in groups && h.id in parent && parent[h.id] == NoId
    ensures nested.Keys == parent.Keys
    ensures forall h <- ps :: nested[h.id] == HungBelow(tops[h.trace], h.id)
  {
    nested := parent;
    var todo := groups.Keys;
    while todo != {}
      invariant todo <= groups.Keys && nested.Keys == parent.Keys
      invariant forall h <- ps :: nested[h.id] == if h.trace in todo then NoId else HungBelow(tops[h.trace], h.id)
    {
      var t :| t in todo;
      ghost var before := nested;
      nested := NestTrace(ps, t, groups[t], nested, tops[t]);
      OneMoreTrace(ps, tops, before, nested, todo, t);
      todo := todo - {t};
    }
  }

  lemma OneMoreTrace(ps: seq<Placeholder>, tops: map<Id, Id>, before: map<Id, Id>, after: map<Id, Id>, todo: set<Id>, t: Id)
    requires before.Keys == after.Keys && t in tops && todo <= tops.Keys
    requires forall h <- ps :: h.id in before && h.trace in tops
    requires forall h <- ps :: before[h.id] == if h.trace in todo then NoId else HungBelow(tops[h.trace], h.id)
    requires forall h <- ps :: after[h.id] == if h.trace != t then before[h.id] else HungBelow(tops[t], h.id)
    ensures forall h <- ps :: after[h.id] == if h.trace in todo - {t} then NoId else HungBelow(tops[h.trace], h.id)
  {
  }

  /** The k-th placeholder is the one root of its trace, all others of the trace hang below it, none starts
      earlier, and those that start with it come later in ps. */
  ghost predicate Heads(ps: seq<Placeholder>, parent: map<Id, Id>, k: nat)
    requires forall h <- ps :: h.id in parent
  {
    && k < |ps| && parent[ps[k].id] == NoId
    && forall j :: 0 <= j < |ps| && ps[j].trace == ps[k].trace ==>
         && ps[k].start <= ps[j].start && (j < k ==> ps[k].start < ps[j].start)
         && (j != k ==> parent[ps[j].id] == ps[k].id && parent[ps[j].id] != NoId)
  }

  /** Every trace of a placeholder has such a root. */
  ghost predicate NestedByTrace(ps: seq<Placeholder>, parent: map<Id, Id>)
    requires forall h <- ps :: h.id in parent
  {
    forall h <- ps :: exists k: nat :: Heads(ps, parent, k) && ps[k].trace == h.trace
  }

  lemma {:induction false} EarliestMore(ps: seq<Placeholder>, h: Placeholder)
    requires ps != []
    ensures Earliest(ps + [h]) == if Earliest(ps).start <= h.start then Earliest(ps) else h
  {
    if |ps| == 1 {
      assert (ps + [h])[1..] == [h];
    } else {
      EarliestMore(ps[1..], h);
      assert (ps + [h])[1..] == ps[1..] + [h];
    }
  }

  predicate FirstOfTrace(ps: seq<Placeholder>, t: Id, k: nat) {
    && k < |ps| && ps[k].trace == t
    && forall j :: 0 <= j < k && ps[j].trace == t ==> ps[k].start < ps[j].start
  }

  lemma LastIsFirst(ps: seq<Placeholder>, t: Id)
    requires ps != [] && ps[|ps|-1].trace == t
    requires forall h <- InTrace(ps[..|ps|-1], t) :: ps[|ps|-1].start < h.start
    ensures FirstOfTrace(ps, t, |ps| - 1)
  {
    var front := ps[..|ps|-1];
    forall j | 0 <= j < |front| && ps[j].trace == t ensures ps[|ps|-1].start < ps[j].start {
      InTraceMembers(front, t);
      assert front[j] in front;
    }
  }

  lemma {:induction false} EarliestAt(ps: seq<Placeholder>, t: Id) returns (k: nat)
    requires InTrace(ps, t) != []
    ensures FirstOfTrace(ps, t, k) && ps[k] == Earliest(InTrace(ps, t))
  {
    var front, last := ps[..|ps|-1], ps[|ps|-1];
    var group := InTrace(front, t);
    assert InTrace(ps, t) == if last.trace == t then group + [last] else group;
    if group == [] {
      k := |ps| - 1;
      LastIsFirst(ps, t);
    } else {
      EarliestMore(group, last);
      if last.trace == t && last.start < Earliest(group).start {
        k := |ps| - 1;
        LastIsFirst(ps, t);
      } else {
        k := EarliestAt(front, t);
      }
    }
  }

  lemma NestedIsByTrace(ps: seq<Placeholder>, parent: map<Id, Id>)
    requires Distinct(PlaceholderIds(ps)) && NoId !in PlaceholderIds(ps)
    requires forall h <- ps :: h.id in parent && parent[h.id] == NestedParent(ps, h)
    ensures NestedByTrace(ps, parent)
  {
    var ids := PlaceholderIds(ps);
    forall h <- ps ensures exists k: nat :: Heads(ps, parent, k) && ps[k].trace == h.trace {
      InTraceMembers(ps, h.trace);
      var k := EarliestAt(ps, h.trace);
      forall j | 0 <= j < |ps| && ps[j].trace == h.trace
        ensures ps[k].start <= ps[j].start && (j < k ==> ps[k].start < ps[j].start)
        ensures j != k ==> parent[ps[j].id] == ps[k].id && parent[ps[j].id] != NoId
      {
        assert ps[j] in InTrace(ps, h.trace);
        assert j != k ==> ids[j] != ids[k];
        assert ids[k] in ids;
      }
      assert Heads(ps, parent, k);
    }
  }

  lemma EachInTrace(ps: seq<Placeholder>)
    ensures forall h <- ps :: InTrace(ps, h.trace) != []
  {
    forall h <- ps ensures InTrace(ps, h.trace) != [] {
      InTraceMembers(ps, h.trace);
    }
  }

  /** Parent ids of the placeholders. */
  method NestPlaceholders(ps: seq<Placeholder>) returns (parent: map<Id, Id>)
    requires Distinct(PlaceholderIds(ps)) && NoId !in PlaceholderIds(ps)
    ensures forall p :: p in parent <==> p in PlaceholderIds(ps)
    ensures forall h <- ps :: h.id in parent && parent[h.id] == NestedParent(ps, h)
    ensures NestedByTrace(ps, parent)
  {
    EachIdListed(ps);
    var groups := GroupByTrace(ps);
    ghost var tops := map t | t in groups :: Earliest(groups[t]).id;
    EachInTrace(ps);
    parent := NestAll(ps, groups, map p | p in PlaceholderIds(ps) :: NoId, tops);
    NestedIsByTrace(ps, parent);
  }

  lemma GroupDone(ps: seq<Placeholder>, t: Id, before: map<Id, Id>, after: map<Id, Id>)
    requires DistinctIds(ps) && InTrace(ps, t) != [] && before.Keys == after.Keys
    requires forall h <- ps :: h.id in before
    requires forall h <- InTrace(ps, t) ::
      h.id in after && after[h.id] == HungBelow(Earliest(InTrace(ps, t)).id, h.id)
    requires forall p <- before :: p !in PlaceholderIds(InTrace(ps, t)) ==> after[p] == before[p]
    ensures forall h <- ps :: after[h.id] == (if h.trace != t then before[h.id] else HungBelow(Earliest(InTrace(ps, t)).id, h.id))
  {
    var group := InTrace(ps, t);
    InTraceMembers(ps, t);
    forall h <- ps
      ensures after[h.id] == if h.trace != t then before[h.id] else HungBelow(Earliest(group).id, h.id)
    {
      if h.trace != t {
        forall k | 0 <= k < |group| ensures PlaceholderIds(group)[k] != h.id {
          assert group[k] in group;
        }
      }
    }
  }

  // ---------------------------------------------------------------- linking and sorting

  /** The nodes of the order whose parent is p, in that order. */
  function ChildrenIn(order: seq<Id>, parent: map<Id, Id>, p: Id): seq<Id>
    requires forall x <- order :: x in parent
  {
    if order == [] then []
    else ChildrenIn(order[..|order|-1], parent, p) + if parent[order[|order|-1]] == p then [order[|order|-1]] else []
  }

  function RootsIn(order: seq<Id>, parent: map<Id, Id>): seq<Id>
    requires forall x <- order :: x in parent
  {
    if order == [] then []
    else RootsIn(order[..|order|-1], parent)
         + if parent[order[|order|-1]] !in parent then [order[|order|-1]] else []
  }

  /** Push every node onto its parent's children, or onto the roots when the parent is no node. */
  method LinkNodes(order: seq<Id>, parent: map<Id, Id>) returns (kids: map<Id, seq<Id>>, roots: seq<Id>)
    requires forall x :: x in order <==> x in parent
    ensures kids.Keys == parent.Keys
    ensures forall p <- kids :: kids[p] == ChildrenIn(order, parent, p)
    ensures roots == RootsIn(order, parent)
  {
    kids, roots := map p | p in parent :: [], [];
    for i := 0 to |order|
      invariant kids.Keys == parent.Keys
      invariant forall x <- order[..i] :: x in parent
      invariant forall p <- kids :: kids[p] == ChildrenIn(order[..i], parent, p)
      invariant roots == RootsIn(order[..i], parent)
    {
      assert order[..i+1][..i] == order[..i];
      assert order[i] in order;
      assert order[..i+1] == order[..i] + [order[i]];
      var p := parent[order[i]];
      if p in kids {
        kids := kids[p := kids[p] + [order[i]]];
      } else {
        roots := roots + [order[i]];
      }
    }
    assert order[..|order|] == order;
  }

  function StartOf(start: map<Id, int>): Id -> int { x => if x in start then start[x] else 0 }

  method SortAll(start: map<Id, int>, kids: map<Id, seq<Id>>) returns (sorted: map<Id, seq<Id>>)
    ensures sorted.Keys == kids.Keys && forall p <- kids :: sorted[p] == SortBy(StartOf(start), kids[p])
  {
    sorted := kids;
    var todo := kids.Keys;
    while todo != {}
      invariant sorted.Keys == kids.Keys && todo <= kids.Keys
      invariant forall p <- kids :: sorted[p] == if p in todo then kids[p] else SortBy(StartOf(start), kids[p])
    {
      var p :| p in todo;
      sorted := sorted[p := SortBy(StartOf(start), sorted[p])];
      todo := todo - {p};
    }
  }

  lemma {:induction false} ChildrenMembers(order: seq<Id>, parent: map<Id, Id>, p: Id)
    requires (forall x <- order :: x in parent) && Distinct(order)
    ensures Distinct(ChildrenIn(order, parent, p))
    ensures forall x :: x in ChildrenIn(order, parent, p) <==> x in order && parent[x] == p
  {
    if order != [] {
      assert order == order[..|order|-1] + [order[|order|-1]];
      assert order[|order|-1] !in order[..|order|-1];
      ChildrenMembers(order[..|order|-1], parent, p);
    }
  }

  lemma {:induction false} RootsMembers(order: seq<Id>, parent: map<Id, Id>)
    requires (forall x <- order :: x in parent) && Distinct(order)
    ensures Distinct(RootsIn(order, parent))
    ensures forall x :: x in RootsIn(order, parent) <==> x in order && parent[x] !in parent
  {
    if order != [] {
      assert order == order[..|order|-1] + [order[|order|-1]];
      assert order[|order|-1] !in order[..|order|-1];
      RootsMembers(order[..|order|-1], parent);
    }
  }

  // ---------------------------------------------------------------- the whole construction

  /** A forest over the given parents: each node in the children of its parent or, without one, among the
      roots, once; children and roots by start time. */
  ghost predicate IsForest(f: Forest) {
    && Linked(f) && SortedBy(StartOf(f.start), f.roots)
    && forall p <- f.kids :: SortedBy(StartOf(f.start), f.kids[p])
  }

  /** Nodes that start at once stay in the order they were linked in. */
  ghost predicate TiesInOrder(f: Forest, order: seq<Id>) {
    && (forall x, y :: Before(f.roots, x, y) && StartOf(f.start)(x) == StartOf(f.start)(y) ==> Before(order, x, y))
    && (forall p, x, y :: p in f.kids && Before(f.kids[p], x, y) && StartOf(f.start)(x) == StartOf(f.start)(y) ==> Before(order, x, y))
  }

  ghost predicate Linked(f: Forest) {
    && f.start.Keys == f.parent.Keys == f.kids.Keys
    && (forall p <- f.kids :: Distinct(f.kids[p]))
    && (forall p, x {:trigger x in f.kids[p]} :: p in f.kids && x in f.kids[p] ==> x in f.parent && f.parent[x] == p)
    && (forall x {:trigger f.parent[x]} :: x in f.parent && f.parent[x] in f.kids ==> x in f.kids[f.parent[x]])
    && Distinct(f.roots)
    && (forall x :: x in f.roots <==> x in f.parent && f.parent[x] !in f.parent)
  }

  /** The nodes are the spans below their recorded parents, plus one placeholder per missing parent. */
  ghost predicate Covers(spans: seq<Span>, ps: seq<Placeholder>, f: Forest) {
    && Collected(spans, ps)
    && (forall x :: x in f.parent <==> x in SpanIds(spans) || IsMissing(spans, x))
    && (forall s <- spans :: s.id in f.parent && f.parent[s.id] == s.parent && s.id in f.start && f.start[s.id] == s.start)
    && (forall h <- ps :: h.id in f.parent && h.id in f.start && f.start[h.id] == h.start
          && f.parent[h.id] == NestedParent(ps, h))
    && NestedByTrace(ps, f.parent)
  }

  /** What the store guarantees of the spans of a trace. */
  ghost predicate Identified(spans: seq<Span>) { Distinct(SpanIds(spans)) && NoId !in SpanIds(spans) }

  /** Start time and parent of every node, spans first, placeholders over them. */
  method SpanTable(spans: seq<Span>) returns (start: map<Id, int>, parent: map<Id, Id>)
    requires Distinct(SpanIds(spans))
    ensures forall x :: x in parent <==> x in SpanIds(spans)
    ensures start.Keys == parent.Keys
    ensures forall s <- spans :: s.id in parent && parent[s.id] == s.parent && start[s.id] == s.start
  {
    start, parent := map[], map[];
    for i := 0 to |spans|
      invariant start.Keys == parent.Keys && forall x :: x in parent <==> x in SpanIds(spans)[..i]
      invariant forall j :: 0 <= j < i ==>
        spans[j].id in parent && parent[spans[j].id] == spans[j].parent && start[spans[j].id] == spans[j].start
    {
      assert SpanIds(spans)[..i+1] == SpanIds(spans)[..i] + [spans[i].id];
      assert forall j :: 0 <= j < i ==> SpanIds(spans)[j] != SpanIds(spans)[i];
      start, parent := start[spans[i].id := spans[i].start], parent[spans[i].id := spans[i].parent];
    }
    assert SpanIds(spans)[..|spans|] == SpanIds(spans);
    forall s <- spans ensures s.id in parent && parent[s.id] == s.parent && start[s.id] == s.start {
      var j :| 0 <= j < |spans| && spans[j] == s;
    }
  }

  method PlaceholderStarts(ps: seq<Placeholder>) returns (start: map<Id, int>)
    requires Distinct(PlaceholderIds(ps))
    ensures forall x :: x in start <==> x in PlaceholderIds(ps)
    ensures forall h <- ps :: h.id in start && start[h.id] == h.start
  {
    start := map[];
    for i := 0 to |ps|
      invariant forall x :: x in start <==> x in PlaceholderIds(ps)[..i]
      invariant forall j :: 0 <= j < i ==> ps[j].id in start && start[ps[j].id] == ps[j].start
    {
      assert PlaceholderIds(ps)[..i+1] == PlaceholderIds(ps)[..i] + [ps[i].id];
      assert forall j :: 0 <= j < i ==> PlaceholderIds(ps)[j] != PlaceholderIds(ps)[i];
      start := start[ps[i].id := ps[i].start];
    }
    assert PlaceholderIds(ps)[..|ps|] == PlaceholderIds(ps);
    forall h <- ps ensures h.id in start && start[h.id] == h.start {
      var j :| 0 <= j < |ps| && ps[j] == h;
    }
  }

  lemma SortedMembers(start: map<Id, int>, xs: seq<Id>)
    requires Distinct(xs)
    ensures Distinct(SortBy(StartOf(start), xs)) && SortedBy(StartOf(start), SortBy(StartOf(start), xs))
    ensures forall x :: x in SortBy(StartOf(start), xs) <==> x in xs
  {
    SortMembers(StartOf(start), xs);
    SortDistinct(StartOf(start), xs);
  }

  lemma LinkedIsForest(order: seq<Id>, f: Forest)
    requires Distinct(order) && forall x :: x in order <==> x in f.parent
    requires f.start.Keys == f.parent.Keys == f.kids.Keys
    requires forall p <- f.kids :: f.kids[p] == SortBy(StartOf(f.start), ChildrenIn(order, f.parent, p))
    requires f.roots == SortBy(StartOf(f.start), RootsIn(order, f.parent))
    ensures IsForest(f) && TiesInOrder(f, order)
  {
    forall p <- f.kids
      ensures Distinct(f.kids[p]) && SortedBy(StartOf(f.start), f.kids[p])
      ensures forall x :: x in f.kids[p] <==> x in f.parent && f.parent[x] == p
    {
      ChildrenMembers(order, f.parent, p);
      SortedMembers(f.start, ChildrenIn(order, f.parent, p));
    }
    assert forall p, x :: p in f.kids ==> (x in f.kids[p] <==> x in f.parent && f.parent[x] == p);
    RootsMembers(order, f.parent);
    SortedMembers(f.start, RootsIn(order, f.parent));
    LinkedInOrder(order, f);
  }

  lemma BeforeInFront(s: seq<Id>, x: Id, y: Id)
    requires s != [] && (Before(s[..|s|-1], x, y) || (x in s[..|s|-1] && y == s[|s|-1]))
    ensures Before(s, x, y)
  {
    if !Before(s[..|s|-1], x, y) {
      var i :| 0 <= i < |s| - 1 && s[i] == x;
    }
  }

  lemma {:induction false} ChildrenInOrder(order: seq<Id>, parent: map<Id, Id>, p: Id, x: Id, y: Id)
    requires (forall x <- order :: x in parent) && Distinct(order) && Before(ChildrenIn(order, parent, p), x, y)
    ensures Before(order, x, y)
  {
    var front := order[..|order|-1];
    ChildrenMembers(front, parent, p);
    if Before(ChildrenIn(front, parent, p), x, y) {
      ChildrenInOrder(front, parent, p, x, y);
    }
    BeforeInFront(order, x, y);
  }

  lemma {:induction false} RootsInOrder(order: seq<Id>, parent: map<Id, Id>, x: Id, y: Id)
    requires (forall x <- order :: x in parent) && Distinct(order) && Before(RootsIn(order, parent), x, y)
    ensures Before(order, x, y)
  {
    var front := order[..|order|-1];
    RootsMembers(front, parent);
    if Before(RootsIn(front, parent), x, y) {
      RootsInOrder(front, parent, x, y);
    }
    BeforeInFront(order, x, y);
  }

  lemma LinkedInOrder(order: seq<Id>, f: Forest)
    requires Distinct(order) && forall x <- order :: x in f.parent
    requires forall p <- f.kids :: f.kids[p] == SortBy(StartOf(f.start), ChildrenIn(order, f.parent, p))
    requires f.roots == SortBy(StartOf(f.start), RootsIn(order, f.parent))
    ensures TiesInOrder(f, order)
  {
    var key := StartOf(f.start);
    forall x, y | Before(f.roots, x, y) && key(x) == key(y) ensures Before(order, x, y) {
      SortStable(key, RootsIn(order, f.parent), x, y);
      RootsInOrder(order, f.parent, x, y);
    }
    forall p, x, y | p in f.kids && Before(f.kids[p], x, y) && key(x) == key(y) ensures Before(order, x, y) {
      SortStable(key, ChildrenIn(order, f.parent, p), x, y);
      ChildrenInOrder(order, f.parent, p, x, y);
    }
  }

  /** Placeholder ids and span ids do not meet. */
  lemma NodeOrder(spans: seq<Span>, ps: seq<Placeholder>)
    requires Identified(spans) && Collected(spans, ps)
    ensures var order := PlaceholderIds(ps) + SpanIds(spans);
      Distinct(order) && forall x :: x in order <==> x in SpanIds(spans) || IsMissing(spans, x)
    ensures forall x :: x in PlaceholderIds(ps) <==> IsMissing(spans, x)
  {
    var (a, b) := (PlaceholderIds(ps), SpanIds(spans));
    forall x | x in a ensures IsMissing(spans, x) {
      var i :| 0 <= i < |a| && a[i] == x;
      assert ps[i] in ps;
    }
    DistinctConcat(a, b);
  }

  /** What the node table holds. */
  ghost predicate Tabled(spans: seq<Span>, ps: seq<Placeholder>, start: map<Id, int>, parent: map<Id, Id>) {
    && start.Keys == parent.Keys
    && (forall x :: x in parent <==> x in SpanIds(spans) || x in PlaceholderIds(ps))
    && (forall s <- spans :: s.id in parent && parent[s.id] == s.parent && start[s.id] == s.start)
    && (forall h <- ps :: h.id in parent && start[h.id] == h.start && parent[h.id] == NestedParent(ps, h))
    && NestedByTrace(ps, parent)
  }

  method NodeTable(spans: seq<Span>, ps: seq<Placeholder>) returns (start: map<Id, int>, parent: map<Id, Id>)
    requires Identified(spans) && Collected(spans, ps)
    ensures Tabled(spans, ps, start, parent)
  {
    NodeOrder(spans, ps);
    assert !IsMissing(spans, NoId);
    var nested := NestPlaceholders(ps);
    var starts := PlaceholderStarts(ps);
    start, parent := SpanTable(spans);
    start, parent := start + starts, parent + nested;
    forall s <- spans ensures s.id !in PlaceholderIds(ps) {
      assert !IsMissing(spans, s.id);
    }
    NestedIsByTrace(ps, parent);
  }

  method BuildSpanTree(spans: seq<Span>) returns (f: Forest, ghost ps: seq<Placeholder>)
    requires Identified(spans)
    ensures IsForest(f) && Covers(spans, ps, f) && TiesInOrder(f, PlaceholderIds(ps) + SpanIds(spans))
  {
    var placeholders := Placeholders(spans);
    ps := placeholders;
    var start, parent := NodeTable(spans, placeholders);
    var order := PlaceholderIds(placeholders) + SpanIds(spans);
    NodeOrder(spans, placeholders);
    var kids, roots := LinkNodes(order, parent);
    kids := SortAll(start, kids);
    f := Forest(start, parent, kids, SortBy(StartOf(start), roots));
    LinkedIsForest(order, f);
  }
}

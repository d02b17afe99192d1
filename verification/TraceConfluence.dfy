/** Agent types do not depend on how spans were split into payloads, ordered or repeated: exactly when
    the batch-wide walk (which matches ids only) agrees with the walk over stored rows. */
module TraceConfluence {
  import opened Common
  import opened TraceSpans
  import opened TraceStore
  import opened TraceRuns

  ghost function Types(st: Store): map<Key, Option<string>> { map k | k in st.rows :: st.rows[k].agentType }

  /** Every span with the type of the nearest typed ancestor-or-self in its trace. */
  ghost function Canonical(u: map<Key, Span>): map<Key, Option<string>> { map k | k in u :: Nearest(u, k) }

  /** A run of payloads only, delivering all of u (any split, order and repetition) and nothing else. */
  ghost predicate Complete(u: map<Key, Span>, events: seq<Event>, stores: seq<Store>) {
    && Run(events, stores) && (forall e <- events :: e.Deliver?)
    && Consistent(u, events) && u.Values <= Delivered(events)
  }

  ghost predicate Confluent(u: map<Key, Span>) {
    forall e1, s1, e2, s2 :: Complete(u, e1, s1) && Complete(u, e2, s2) ==> Types(s1[|s1|-1]) == Types(s2[|s2|-1])
  }

  /** Whatever type a walk over the spans of b could hand to one of them is the canonical one. */
  ghost predicate CoherentFor(u: map<Key, Span>, b: set<Span>) {
    forall s, t :: s in b && MemReaches(b, s, t) ==> DbReaches(u, s.RowKey(), t)
  }

  ghost predicate Coherent(u: map<Key, Span>) { CoherentFor(u, u.Values) }

  // ---------------------------------------------------------------- facts about the two reach relations

  lemma {:induction false} MemMonotone(b: set<Span>, c: set<Span>, s: Span, n: nat, t: string)
    requires b <= c && MemReach(b, s, n, t)
    ensures MemReach(c, s, n, t)
    decreases n
  {
    if !s.Typed() {
      var p :| MemParent(b, s, p) && MemReach(b, p, n - 1, t);
      MemMonotone(b, c, p, n - 1, t);
      assert MemParent(c, s, p);
    }
  }

  lemma {:induction false} DbUnique(m: map<Key, Span>, k: Key, n: nat, t: string, n': nat, t': string)
    requires DbReach(m, k, n, t) && DbReach(m, k, n', t')
    ensures t == t'
    decreases n
  {
    if m[k].own.None? {
      DbUnique(m, Key(k.trace, m[k].parent), n - 1, t, n' - 1, t');
    }
  }

  lemma CoherentSubset(u: map<Key, Span>, b: set<Span>)
    requires Coherent(u) && b <= u.Values
    ensures CoherentFor(u, b)
  {
    forall s, t | s in b && MemReaches(b, s, t) ensures DbReaches(u, s.RowKey(), t) {
      var n: nat :| MemReach(b, s, n, t);
      MemMonotone(b, u.Values, s, n, t);
      assert MemReaches(u.Values, s, t);
    }
  }

  // ---------------------------------------------------------------- the invariant of a run

  ghost function Only(u: map<Key, Span>, seen: set<Key>): map<Key, Span> { map k | k in u && k in seen :: u[k] }

  /** Stored types are canonical in u, and every type derivable from the stored spans is stored. */
  ghost predicate TypesInv(u: map<Key, Span>, seen: set<Key>, rows: map<Key, Row>) {
    && rows.Keys == seen <= u.Keys
    && (forall k <- rows :: rows[k].span == u[k])
    && (forall k <- rows :: rows[k].agentType.Some? ==> DbReaches(u, k, rows[k].agentType.value))
    && (forall k <- rows, t | DbReaches(Only(u, seen), k, t) :: rows[k].agentType.Some?)
  }

  /** The staged table: types canonical, and only spans without a type of their own lack one. */
  ghost predicate StagedInv(u: map<Key, Span>, rows: map<Key, Row>) {
    && rows.Keys <= u.Keys
    && (forall k <- rows :: rows[k].span == u[k])
    && (forall k <- rows :: rows[k].agentType.Some? ==> DbReaches(u, k, rows[k].agentType.value))
    && (forall k <- rows :: rows[k].agentType.None? ==> u[k].own.None?)
  }

  lemma StagingKeeps(u: map<Key, Span>, seen: set<Key>, before: map<Key, Row>, spans: seq<Span>, staged: map<Key, Row>)
    requires Keyed(u) && TypesInv(u, seen, before) && ConsistentBatch(u, spans) && CoherentFor(u, BatchOf(spans))
    requires Staged(before, spans, staged)
    ensures StagedInv(u, staged)
  {
    forall k <- staged
      ensures staged[k].span == u[k]
      ensures staged[k].agentType.Some? ==> DbReaches(u, k, staged[k].agentType.value)
      ensures staged[k].agentType.None? ==> u[k].own.None?
    {
      if u[k].own.Some? {
        assert DbReach(u, k, 0, u[k].own.value);
        if k in seen {
          assert DbReach(Only(u, seen), k, 0, u[k].own.value);
          assert DbReaches(Only(u, seen), k, u[k].own.value);
        }
      }
      if k in KeysOf(spans) {
        assert staged[k].span in BatchOf(spans) && staged[k].span.RowKey() == k;
      }
    }
  }

  lemma {:induction false} StoredIsCanonical(u: map<Key, Span>, rows: map<Key, Row>, k: Key, n: nat, t: string)
    requires StagedInv(u, rows) && StoredReach(rows, k, n, t)
    ensures DbReaches(u, k, t)
    decreases n
  {
    if rows[k].agentType.None? {
      StoredIsCanonical(u, rows, ParentKey(rows, k), n - 1, t);
      var m: nat :| DbReach(u, ParentKey(rows, k), m, t);
      assert DbReach(u, k, m + 1, t);
    }
  }

  lemma {:induction false} DerivableIsStored(u: map<Key, Span>, rows: map<Key, Row>, k: Key, n: nat, t: string)
    requires StagedInv(u, rows) && DbReach(Only(u, rows.Keys), k, n, t)
    ensures exists t' :: StoredReaches(rows, k, t')
    decreases n
  {
    if rows[k].agentType.Some? {
      assert StoredReach(rows, k, 0, rows[k].agentType.value);
      assert StoredReaches(rows, k, rows[k].agentType.value);
    } else {
      DerivableIsStored(u, rows, ParentKey(rows, k), n - 1, t);
      var t' :| StoredReaches(rows, ParentKey(rows, k), t');
      var m: nat :| StoredReach(rows, ParentKey(rows, k), m, t');
      assert StoredReach(rows, k, m + 1, t');
      assert StoredReaches(rows, k, t');
    }
  }

  lemma {:induction false} OtherTraces(u: map<Key, Span>, seen: set<Key>, more: set<Key>, k: Key, n: nat, t: string)
    requires forall m <- more :: m.trace != k.trace
    requires DbReach(Only(u, seen + more), k, n, t)
    ensures DbReach(Only(u, seen), k, n, t)
    decreases n
  {
    if u[k].own.None? {
      OtherTraces(u, seen, more, Key(k.trace, u[k].parent), n - 1, t);
    }
  }

  /** Every type after the walk is canonical. */
  lemma WalkSound(u: map<Key, Span>, staged: map<Key, Row>, traces: set<string>, after: map<Key, Row>, k: Key)
    requires StagedInv(u, staged) && Walked(staged, traces, after)
    requires k in after && after[k].agentType.Some?
    ensures DbReaches(u, k, after[k].agentType.value)
  {
    if Untyped(staged, traces, k) {
      var n: nat :| StoredReach(staged, k, n, after[k].agentType.value);
      StoredIsCanonical(u, staged, k, n, after[k].agentType.value);
    }
  }

  /** A type derivable from the stored spans is there after the walk. */
  lemma WalkComplete(u: map<Key, Span>, seen: set<Key>, before: map<Key, Row>, spans: seq<Span>,
                     staged: map<Key, Row>, after: map<Key, Row>, k: Key, n: nat, t: string)
    requires TypesInv(u, seen, before) && Staged(before, spans, staged) && StagedInv(u, staged)
    requires Walked(staged, TracesOf(spans), after)
    requires DbReach(Only(u, seen + KeysOf(spans)), k, n, t)
    ensures k in after && after[k].agentType.Some?
  {
    if k.trace in TracesOf(spans) {
      DerivableIsStored(u, staged, k, n, t);
    } else {
      OtherTraces(u, seen, KeysOf(spans), k, n, t);
      assert DbReaches(Only(u, seen), k, t);
      assert k in before && staged[k] == before[k];
    }
  }

  lemma IngestKeeps(u: map<Key, Span>, seen: set<Key>, before: Store, spans: seq<Span>, after: Store)
    requires Keyed(u) && TypesInv(u, seen, before.rows) && ConsistentBatch(u, spans) && CoherentFor(u, BatchOf(spans))
    requires Ingested(before, spans, after)
    ensures TypesInv(u, seen + KeysOf(spans), after.rows)
  {
    var staged: map<Key, Row> :| Staged(before.rows, spans, staged) && Walked(staged, TracesOf(spans), after.rows);
    StagingKeeps(u, seen, before.rows, spans, staged);
    WalkKeeps(u, seen, before.rows, spans, staged, after.rows);
  }

  lemma WalkKeeps(u: map<Key, Span>, seen: set<Key>, before: map<Key, Row>, spans: seq<Span>,
                  staged: map<Key, Row>, after: map<Key, Row>)
    requires TypesInv(u, seen, before) && Staged(before, spans, staged) && StagedInv(u, staged)
    requires Walked(staged, TracesOf(spans), after)
    ensures TypesInv(u, seen + KeysOf(spans), after)
  {
    var now := seen + KeysOf(spans);
    forall k <- after | after[k].agentType.Some? ensures DbReaches(u, k, after[k].agentType.value) {
      WalkSound(u, staged, TracesOf(spans), after, k);
    }
    forall k, t | k in after && DbReaches(Only(u, now), k, t) ensures after[k].agentType.Some? {
      var n: nat :| DbReach(Only(u, now), k, n, t);
      WalkComplete(u, seen, before, spans, staged, after, k, n, t);
    }
  }

  ghost function DeliveredKeys(events: seq<Event>): set<Key> { set s | s in Delivered(events) :: s.RowKey() }

  lemma KeysGrow(events: seq<Event>)
    requires events != [] && events[|events|-1].Deliver?
    ensures DeliveredKeys(events) == DeliveredKeys(events[..|events|-1]) + KeysOf(events[|events|-1].spans)
  {
    DeliveredPrefix(events);
  }

  lemma {:induction false} RunKeeps(u: map<Key, Span>, events: seq<Event>, stores: seq<Store>)
    requires Keyed(u) && Run(events, stores) && Consistent(u, events)
    requires forall e <- events :: e.Deliver? && CoherentFor(u, BatchOf(e.spans))
    ensures TypesInv(u, DeliveredKeys(events), stores[|stores|-1].rows)
  {
    if events != [] {
      var last := events[|events|-1];
      var front := events[..|events|-1];
      assert last in events;
      RunPrefix(events, stores);
      ConsistentPrefix(u, events);
      RunKeeps(u, front, stores[..|stores|-1]);
      IngestKeeps(u, DeliveredKeys(front), stores[|stores|-2], last.spans, stores[|stores|-1]);
      KeysGrow(events);
    }
  }

  /** The final table of any complete run whose payloads are each coherent. */
  lemma RunIsCanonical(u: map<Key, Span>, events: seq<Event>, stores: seq<Store>)
    requires Keyed(u) && Complete(u, events, stores)
    requires forall e <- events :: CoherentFor(u, BatchOf(e.spans))
    ensures Types(stores[|stores|-1]) == Canonical(u)
  {
    RunKeeps(u, events, stores);
    var rows := stores[|stores|-1].rows;
    var seen := DeliveredKeys(events);
    assert seen == u.Keys by {
      forall k <- u ensures k in seen { assert u[k] in u.Values; }
    }
    assert Only(u, seen) == u;
    forall k <- u ensures rows[k].agentType == Nearest(u, k) {
      if rows[k].agentType.Some? {
        var t := rows[k].agentType.value;
        assert DbReaches(u, k, t);
        forall t' | DbReaches(u, k, t') ensures t' == t {
          var n: nat :| DbReach(u, k, n, t);
          var n': nat :| DbReach(u, k, n', t');
          DbUnique(u, k, n, t, n', t');
        }
      }
    }
  }

  // ---------------------------------------------------------------- when it fails

  /** The spans of one path: a typed span, the untyped spans below it, down to s. */
  lemma {:induction false} PathBelow(b: set<Span>, s: Span, n: nat, t: string) returns (path: set<Span>)
    requires s in b && MemReach(b, s, n, t)
    ensures path <= b && s in path && MemReach(path, s, n, t)
    ensures forall x <- path :: x.Typed() ==> x.own == Some(t)
    decreases n
  {
    if s.Typed() {
      path := {s};
    } else {
      var p :| MemParent(b, s, p) && MemReach(b, p, n - 1, t);
      var above := PathBelow(b, p, n - 1, t);
      path := above + {s};
      MemMonotone(above, path, p, n - 1, t);
      assert MemParent(path, s, p);
    }
  }

  lemma {:induction false} OnlyOneType(b: set<Span>, s: Span, n: nat, t: string, t': string)
    requires s in b && (forall x <- b :: x.Typed() ==> x.own == Some(t)) && MemReach(b, s, n, t')
    ensures t' == t
    decreases n
  {
    if !s.Typed() {
      var p :| MemParent(b, s, p) && MemReach(b, p, n - 1, t');
      OnlyOneType(b, p, n - 1, t, t');
    }
  }

  lemma {:induction false} AloneNothingInherits(s: Span, n: nat, t: string)
    requires MemReach({s}, s, n, t)
    ensures s.own == Some(t)
    decreases n
  {
    if !s.Typed() {
      AloneNothingInherits(s, n - 1, t);
    }
  }

  lemma ValueOf(u: map<Key, Span>, s: Span)
    requires Keyed(u) && s in u.Values
    ensures s.RowKey() in u && u[s.RowKey()] == s
  {
    var k :| k in u && u[k] == s;
  }

  ghost function Singles(l: seq<Span>): seq<Event> { seq(|l|, i requires 0 <= i < |l| => Deliver([l[i]])) }

  /** One span per payload always ends in the canonical table. */
  lemma OneByOne(u: map<Key, Span>) returns (events: seq<Event>, stores: seq<Store>)
    requires Keyed(u)
    ensures Complete(u, events, stores) && Types(stores[|stores|-1]) == Canonical(u)
  {
    var l := Listed(u.Values);
    events := Singles(l);
    stores := RunExists(events);
    forall s <- l ensures s.RowKey() in u && u[s.RowKey()] == s {
      ValueOf(u, s);
    }
    forall s <- u.Values ensures s in Delivered(events) {
      var i :| 0 <= i < |l| && l[i] == s;
      DeliveredOne(events, events[i], s);
    }
    forall e <- events ensures CoherentFor(u, BatchOf(e.spans)) {
      var i :| 0 <= i < |l| && e == Deliver([l[i]]);
      assert BatchOf(e.spans) == {l[i]};
      forall t, n: nat | MemReach({l[i]}, l[i], n, t) ensures DbReaches(u, l[i].RowKey(), t) {
        AloneNothingInherits(l[i], n, t);
        assert DbReach(u, l[i].RowKey(), 0, t);
      }
    }
    RunIsCanonical(u, events, stores);
  }

  lemma TwoPayloads(u: map<Key, Span>, first: seq<Span>, second: seq<Span>)
    requires Keyed(u) && BatchOf(first) + BatchOf(second) == u.Values
    ensures Consistent(u, [Deliver(first), Deliver(second)])
    ensures u.Values <= Delivered([Deliver(first), Deliver(second)])
  {
    var events := [Deliver(first), Deliver(second)];
    assert events[0] in events && events[1] in events;
    forall x <- Delivered(events) ensures x.RowKey() in u && u[x.RowKey()] == x {
      assert x in BatchOf(first) || x in BatchOf(second);
      ValueOf(u, x);
    }
    forall x <- u.Values ensures x in Delivered(events) {
      DeliveredOne(events, if x in BatchOf(first) then events[0] else events[1], x);
    }
  }

  lemma LaterPayloadKeeps(before: Store, spans: seq<Span>, after: Store, k: Key)
    requires Ingested(before, spans, after) && k !in KeysOf(spans)
    requires k in before.rows && before.rows[k].agentType.Some?
    ensures k in after.rows && after.rows[k].agentType == before.rows[k].agentType
  {
  }

  /** A payload that hands s type t, followed by everything else, leaves t on s. */
  lemma PathFirst(u: map<Key, Span>, s: Span, n: nat, t: string) returns (events: seq<Event>, stores: seq<Store>)
    requires Keyed(u) && s in u.Values && MemReach(u.Values, s, n, t)
    ensures Complete(u, events, stores)
    ensures s.RowKey() in stores[|stores|-1].rows && stores[|stores|-1].rows[s.RowKey()].agentType == Some(t)
  {
    var path := PathBelow(u.Values, s, n, t);
    var first, second := Listed(path), Listed(u.Values - path);
    assert BatchOf(first) == path && BatchOf(second) == u.Values - path;
    events := [Deliver(first), Deliver(second)];
    stores := RunExists(events);
    TwoPayloads(u, first, second);
    PathKept(u, path, s, n, t, first, second, stores[0], stores[1], stores[2]) by {
      assert Step(stores[0], events[0], stores[1]) && Step(stores[1], events[1], stores[2]);
    }
  }

  lemma PathKept(u: map<Key, Span>, path: set<Span>, s: Span, n: nat, t: string,
                 first: seq<Span>, second: seq<Span>, st0: Store, st1: Store, st2: Store)
    requires Keyed(u) && path <= u.Values && s in path && MemReach(path, s, n, t)
    requires BatchOf(first) == path && BatchOf(second) == u.Values - path
    requires forall x <- path :: x.Typed() ==> x.own == Some(t)
    requires Ingested(st0, first, st1) && Ingested(st1, second, st2)
    ensures s.RowKey() in st2.rows && st2.rows[s.RowKey()].agentType == Some(t)
  {
    TypedByPath(u, path, s, n, t, st0, first, st1);
    forall x <- second ensures x.RowKey() != s.RowKey() {
      assert x in BatchOf(second);
      ValueOf(u, x);
      ValueOf(u, s);
    }
    LaterPayloadKeeps(st1, second, st2, s.RowKey());
  }

  lemma TypedByPath(u: map<Key, Span>, path: set<Span>, s: Span, n: nat, t: string, before: Store, first: seq<Span>, after: Store)
    requires Keyed(u) && path <= u.Values && s in path && BatchOf(first) == path && MemReach(path, s, n, t)
    requires forall x <- path :: x.Typed() ==> x.own == Some(t)
    requires Ingested(before, first, after)
    ensures s.RowKey() in after.rows && after.rows[s.RowKey()].agentType == Some(t)
  {
    var k := s.RowKey();
    var staged: map<Key, Row> :| Staged(before.rows, first, staged) && Walked(staged, TracesOf(first), after.rows);
    assert k in KeysOf(first);
    assert staged[k].span in BatchOf(first) && staged[k].span.RowKey() == k && u[k] == s;
    assert staged[k].span == s;
    assert MemReaches(path, s, t);
    var t' := staged[k].agentType.value;
    var m: nat :| MemReach(path, s, m, t');
    OnlyOneType(path, s, m, t, t');
  }

  // ---------------------------------------------------------------- main results

  /** The final types depend only on the set of spans delivered if and only if u is coherent. */
  lemma ConfluentIffCoherent(u: map<Key, Span>)
    requires Keyed(u)
    ensures Confluent(u) <==> Coherent(u)
  {
    if Coherent(u) {
      forall e1, s1, e2, s2 | Complete(u, e1, s1) && Complete(u, e2, s2)
        ensures Types(s1[|s1|-1]) == Types(s2[|s2|-1])
      {
        CoherentRun(u, e1, s1);
        CoherentRun(u, e2, s2);
      }
    } else {
      var s, t :| s in u.Values && MemReaches(u.Values, s, t) && !DbReaches(u, s.RowKey(), t);
      var n: nat :| MemReach(u.Values, s, n, t);
      var e1, s1 := OneByOne(u);
      var e2, s2 := PathFirst(u, s, n, t);
      assert u[s.RowKey()] == s;
      assert Types(s2[|s2|-1])[s.RowKey()] == Some(t) != Nearest(u, s.RowKey());
    }
  }

  /** For coherent spans the final type of each is that of its nearest typed ancestor-or-self. */
  lemma CoherentRun(u: map<Key, Span>, events: seq<Event>, stores: seq<Store>)
    requires Keyed(u) && Coherent(u) && Complete(u, events, stores)
    ensures Types(stores[|stores|-1]) == Canonical(u)
  {
    forall e <- events ensures CoherentFor(u, BatchOf(e.spans)) {
      forall s <- e.spans ensures s in u.Values {
        DeliveredOne(events, e, s);
      }
      CoherentSubset(u, BatchOf(e.spans));
    }
    RunIsCanonical(u, events, stores);
  }

  /** A parent id names spans of the child's own trace only. */
  ghost predicate LocalParents(u: map<Key, Span>) {
    forall k, l :: k in u && l in u && u[l].id != "" && u[k].parent == u[l].id ==> k.trace == l.trace
  }

  ghost predicate NoEmptyType(u: map<Key, Span>) { forall k <- u :: u[k].own != Some("") }

  /** What a sender can check: parent links stay inside a trace and no name gives an empty type. */
  lemma LocalIsCoherent(u: map<Key, Span>)
    requires Keyed(u) && LocalParents(u) && NoEmptyType(u)
    ensures Coherent(u)
  {
    forall s, t, n: nat | s in u.Values && MemReach(u.Values, s, n, t) ensures DbReaches(u, s.RowKey(), t) {
      LocalReach(u, s, n, t);
    }
  }

  lemma {:induction false} LocalReach(u: map<Key, Span>, s: Span, n: nat, t: string)
    requires Keyed(u) && LocalParents(u) && NoEmptyType(u)
    requires s in u.Values && MemReach(u.Values, s, n, t)
    ensures DbReach(u, s.RowKey(), n, t)
    decreases n
  {
    var k :| k in u && u[k] == s;
    if !s.Typed() {
      var p :| MemParent(u.Values, s, p) && MemReach(u.Values, p, n - 1, t);
      var l :| l in u && u[l] == p;
      LocalReach(u, p, n - 1, t);
    }
  }

  /** Under these conditions the table is exact after every payload, not only at the end. */
  lemma ExactAfterEveryPayload(u: map<Key, Span>, events: seq<Event>, stores: seq<Store>, i: nat)
    requires Keyed(u) && LocalParents(u) && NoEmptyType(u)
    requires Run(events, stores) && Consistent(u, events) && (forall e <- events :: e.Deliver?)
    requires i <= |events|
    ensures Types(stores[i]) == Canonical(Only(u, DeliveredKeys(events[..i])))
  {
    var front := events[..i];
    var v := Only(u, DeliveredKeys(front));
    forall s <- Delivered(front) ensures s.RowKey() in v && v[s.RowKey()] == s {
      var e :| e in front && e.Deliver? && s in e.spans;
      DeliveredOne(events, e, s);
    }
    forall s <- v.Values ensures s in Delivered(front) {
      var k :| k in v && v[k] == s;
      var x :| x in Delivered(front) && x.RowKey() == k;
    }
    LocalIsCoherent(v);
    CoherentRun(v, front, stores[..i+1]);
  }

  const TypedParent := Span("t", "a", "", "BackportAgent", Some("backport"), 0, {})
  const EmptyChild := Span("t", "b", "a", "Agent", Some(""), 1, {})
  const ForeignChild := Span("w", "b", "a", "think", None, 1, {})

  /** A span whose name gives an empty type, below a typed span. */
  lemma EmptyTypeBreaksConfluence()
    ensures !Confluent(map[Key("t", "a") := TypedParent, Key("t", "b") := EmptyChild])
  {
    var u := map[Key("t", "a") := TypedParent, Key("t", "b") := EmptyChild];
    ChildOfTypedParent(u, EmptyChild);
    assert !DbReaches(u, EmptyChild.RowKey(), "backport");
    ConfluentIffCoherent(u);
  }

  /** A parent id that names a span of another trace. */
  lemma ForeignParentBreaksConfluence()
    ensures !Confluent(map[Key("t", "a") := TypedParent, Key("w", "b") := ForeignChild])
  {
    var u := map[Key("t", "a") := TypedParent, Key("w", "b") := ForeignChild];
    ChildOfTypedParent(u, ForeignChild);
    forall n: nat ensures !DbReach(u, Key("w", "b"), n, "backport") {
      if n > 0 {
        assert Key("w", "a") !in u && !DbReach(u, Key("w", "a"), n - 1, "backport");
      }
    }
    ConfluentIffCoherent(u);
  }

  lemma ChildOfTypedParent(u: map<Key, Span>, child: Span)
    requires TypedParent.RowKey() in u && u[TypedParent.RowKey()] == TypedParent
    requires child.RowKey() in u && u[child.RowKey()] == child && child.parent == "a" && !child.Typed()
    ensures child in u.Values && MemReaches(u.Values, child, "backport")
  {
    assert MemParent(u.Values, child, TypedParent) && MemReach(u.Values, TypedParent, 0, "backport");
    assert MemReach(u.Values, child, 1, "backport");
  }
}

/** Runs of the trace server over any sequence of payloads and restarts. */
module TraceRuns {
  import opened Common
  import opened TraceSpans
  import opened TraceStore

  datatype Event = Deliver(spans: seq<Span>) | Restart(cutoff: int)

  const Empty := Store(map[], {})

  ghost predicate Step(before: Store, e: Event, after: Store) {
    match e
    case Deliver(spans) => Ingested(before, spans, after)
    case Restart(cutoff) => Restarted(before, cutoff, after)
  }

  /** stores[i] is the state after the first i events. */
  ghost predicate Run(events: seq<Event>, stores: seq<Store>) {
    && |stores| == |events| + 1 && stores[0] == Empty
    && forall i :: 0 <= i < |events| ==> Step(stores[i], events[i], stores[i+1])
  }

  ghost function Delivered(events: seq<Event>): set<Span> {
    set e, s | e in events && e.Deliver? && s in e.spans :: s
  }

  ghost predicate Keyed(u: map<Key, Span>) { forall k <- u :: u[k].RowKey() == k }

  /** Every delivery of a span is the same span: u says which span a key stands for. */
  ghost predicate Consistent(u: map<Key, Span>, events: seq<Event>) {
    forall s <- Delivered(events) :: s.RowKey() in u && u[s.RowKey()] == s
  }

  lemma DeliveredOne(events: seq<Event>, e: Event, s: Span)
    requires e in events && e.Deliver? && s in e.spans
    ensures s in Delivered(events)
  {
  }

  lemma DeliveredPrefix(events: seq<Event>)
    requires events != []
    ensures Delivered(events[..|events|-1]) <= Delivered(events)
    ensures Delivered(events) == Delivered(events[..|events|-1]) +
                                 (if events[|events|-1].Deliver? then BatchOf(events[|events|-1].spans) else {})
  {
    var last := events[|events|-1];
    assert events == events[..|events|-1] + [last];
  }

  lemma ConsistentPrefix(u: map<Key, Span>, events: seq<Event>)
    requires events != [] && Consistent(u, events)
    ensures Consistent(u, events[..|events|-1])
    ensures events[|events|-1].Deliver? ==> ConsistentBatch(u, events[|events|-1].spans)
  {
    DeliveredPrefix(events);
  }

  ghost predicate ConsistentBatch(u: map<Key, Span>, spans: seq<Span>) {
    forall s <- spans :: s.RowKey() in u && u[s.RowKey()] == s
  }

  lemma RunPrefix(events: seq<Event>, stores: seq<Store>)
    requires events != [] && Run(events, stores)
    ensures Run(events[..|events|-1], stores[..|stores|-1])
    ensures Step(stores[|stores|-2], events[|events|-1], stores[|stores|-1])
  {
  }

  // ---------------------------------------------------------------- every payload can be stored

  ghost function LastIndex(spans: seq<Span>, k: Key): (i: nat)
    requires k in KeysOf(spans)
    ensures LastOf(spans, |spans|, i, k)
  {
    if spans[|spans|-1].RowKey() == k then |spans| - 1
    else
      assert forall s <- spans :: s == spans[|spans|-1] || s in spans[..|spans|-1];
      LastIndex(spans[..|spans|-1], k)
  }

  ghost function SomeOutcome(b: set<Span>, s: Span): (ty: Option<string>)
    ensures MemOutcome(b, s, ty)
  {
    if exists t :: MemReaches(b, s, t) then var t :| MemReaches(b, s, t); Some(t) else s.own
  }

  ghost function AfterWalk(rows: map<Key, Row>, k: Key): (ty: Option<string>)
    ensures ty.Some? ==> StoredReaches(rows, k, ty.value)
    ensures ty.None? ==> forall t :: !StoredReaches(rows, k, t)
  {
    if exists t :: StoredReaches(rows, k, t) then var t :| StoredReaches(rows, k, t); Some(t) else None
  }

  lemma StepExists(before: Store, spans: seq<Span>) returns (after: Store)
    ensures Ingested(before, spans, after)
  {
    var b := BatchOf(spans);
    var staged := map k | k in before.rows.Keys + KeysOf(spans) ::
      if k in KeysOf(spans) then
        var s := spans[LastIndex(spans, k)];
        Row(s, SomeOutcome(b, s), TraceWalk.MergedIssues(b, k.trace))
      else before.rows[k];
    assert Staged(before.rows, spans, staged);
    var walked := map k | k in staged ::
      if Untyped(staged, TracesOf(spans), k) then staged[k].(agentType := AfterWalk(staged, k)) else staged[k];
    assert Walked(staged, TracesOf(spans), walked);
    after := Store(walked, Reindexed(before.index, walked, spans));
  }

  lemma {:induction false} RunExists(events: seq<Event>) returns (stores: seq<Store>)
    requires forall e <- events :: e.Deliver?
    ensures Run(events, stores)
  {
    if events == [] {
      stores := [Empty];
    } else {
      var before := RunExists(events[..|events|-1]);
      var after := StepExists(before[|before|-1], events[|events|-1].spans);
      stores := before + [after];
    }
  }
}

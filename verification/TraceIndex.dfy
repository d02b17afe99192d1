/** The issue index against a naive scan of everything delivered, over any payloads and restarts. */
module TraceIndex {
  import opened Sorting
  import opened TraceSpans
  import opened TraceWalk
  import opened TraceStore
  import opened TraceRuns

  /** Some delivered span of the trace carried the issue itself. */
  ghost predicate Carried(delivered: set<Span>, trace: string, issue: string) {
    exists s :: s in delivered && s.trace == trace && issue in s.issues
  }

  /** The index links some span of the trace to the issue. */
  ghost predicate Linked(st: Store, trace: string, issue: string) {
    exists e :: e in st.index && e.key.trace == trace && e.issue == issue
  }

  // ---------------------------------------------------------------- what every event keeps

  ghost predicate IndexInv(delivered: set<Span>, st: Store) {
    && (forall e <- st.index :: e.key in st.rows && Carried(delivered, e.key.trace, e.issue))
    && (forall k <- st.rows :: st.rows[k].span in delivered && st.rows[k].span.RowKey() == k)
    && (forall k, i :: k in st.rows && i in st.rows[k].span.issues ==> Entry(k, i) in st.index)
    && (forall k, i :: k in st.rows && i in st.rows[k].column ==> Entry(k, i) in st.index)
  }

  lemma IngestKeepsIndex(delivered: set<Span>, before: Store, spans: seq<Span>, after: Store)
    requires IndexInv(delivered, before) && Ingested(before, spans, after)
    ensures IndexInv(delivered + BatchOf(spans), after)
  {
    var now := delivered + BatchOf(spans);
    var staged: map<Key, Row> :| Staged(before.rows, spans, staged) && Walked(staged, TracesOf(spans), after.rows);
    forall k <- after.rows
      ensures after.rows[k].span in now && after.rows[k].span.RowKey() == k
      ensures forall i :: i in after.rows[k].span.issues + after.rows[k].column ==> Entry(k, i) in after.index
    {
      RowIndexed(delivered, before, spans, staged, after, k);
    }
    forall e <- after.index ensures e.key in after.rows && Carried(now, e.key.trace, e.issue) {
      if e in LinkedBy(after.rows, spans) {
        var s :| s in BatchOf(spans) && s.trace == e.key.trace && e.issue in s.issues;
        assert s in now;
      } else {
        assert e in before.index && Carried(delivered, e.key.trace, e.issue);
        var s :| s in delivered && s.trace == e.key.trace && e.issue in s.issues;
        assert s in now;
      }
    }
  }

  lemma RowIndexed(delivered: set<Span>, before: Store, spans: seq<Span>, staged: map<Key, Row>, after: Store, k: Key)
    requires IndexInv(delivered, before)
    requires Staged(before.rows, spans, staged) && Walked(staged, TracesOf(spans), after.rows)
    requires after.index == Reindexed(before.index, after.rows, spans) && k in after.rows
    ensures after.rows[k].span in delivered + BatchOf(spans) && after.rows[k].span.RowKey() == k
    ensures forall i :: i in after.rows[k].span.issues + after.rows[k].column ==> Entry(k, i) in after.index
  {
    var row := staged[k];
    if k in KeysOf(spans) {
      assert row.span in BatchOf(spans) && row.span.RowKey() == k;
      forall i <- row.span.issues ensures i in MergedIssues(BatchOf(spans), k.trace) {
        assert row.span.trace == k.trace;
      }
    } else {
      assert row == before.rows[k];
    }
  }

  /** Start-up changes no index row of a remaining span: the backfill never has anything to add. */
  lemma BackfillAddsNothing(delivered: set<Span>, before: Store, cutoff: int, after: Store)
    requires IndexInv(delivered, before) && Restarted(before, cutoff, after)
    ensures after.index == set e | e in before.index && before.rows[e.key].span.start >= cutoff
    ensures IndexInv(delivered, after)
  {
    if before.index == {} {
      assert (set k, i | k in before.rows && i in before.rows[k].column :: Entry(k, i)) == {};
    }
  }

  /** A database from before there was an index: its rows, whatever wrote them, list every issue that a span
      carries in their column. */
  ghost predicate Legacy(delivered: set<Span>, st: Store) {
    && st.index == {}
    && (forall k <- st.rows :: st.rows[k].span in delivered && st.rows[k].span.RowKey() == k)
    && (forall k <- st.rows :: st.rows[k].span.issues <= st.rows[k].column)
    && (forall k, i :: k in st.rows && i in st.rows[k].column ==> Carried(delivered, k.trace, i))
  }

  /** The backfill makes its index what it would have been: one row per remaining span and issue of its column,
      and everything that payloads and restarts keep from then on. */
  lemma LegacyIsIndexed(delivered: set<Span>, before: Store, cutoff: int, after: Store)
    requires Legacy(delivered, before) && Restarted(before, cutoff, after)
    ensures forall e :: e in after.index <==> e.key in after.rows && e.issue in after.rows[e.key].column
    ensures IndexInv(delivered, after)
  {
    var filled := set k, i | k in before.rows && i in before.rows[k].column :: Entry(k, i);
    assert forall e: Entry :: e in filled <==> e.key in before.rows && e.issue in before.rows[e.key].column by {
      forall e: Entry | e.key in before.rows && e.issue in before.rows[e.key].column ensures e in filled {
        assert e == Entry(e.key, e.issue);
      }
    }
    forall k, i | k in after.rows && i in after.rows[k].column ensures Entry(k, i) in after.index {
      assert Entry(k, i) in filled;
    }
  }

  lemma {:induction false} RunKeepsIndex(events: seq<Event>, stores: seq<Store>)
    requires Run(events, stores)
    ensures IndexInv(Delivered(events), stores[|stores|-1])
  {
    if events != [] {
      var front := events[..|events|-1];
      RunPrefix(events, stores);
      DeliveredPrefix(events);
      RunKeepsIndex(front, stores[..|stores|-1]);
      var before, after := stores[|stores|-2], stores[|stores|-1];
      match events[|events|-1]
      case Deliver(spans) => IngestKeepsIndex(Delivered(front), before, spans, after);
      case Restart(cutoff) => BackfillAddsNothing(Delivered(front), before, cutoff, after);
    }
  }

  lemma {:induction false} NothingLost(u: map<Key, Span>, events: seq<Event>, stores: seq<Store>)
    requires Run(events, stores) && Consistent(u, events) && forall e <- events :: e.Deliver?
    ensures forall s <- Delivered(events) ::
      s.RowKey() in stores[|stores|-1].rows && stores[|stores|-1].rows[s.RowKey()].span == s
  {
    if events != [] {
      var front := events[..|events|-1];
      var before, after, spans := stores[|stores|-2], stores[|stores|-1], events[|events|-1].spans;
      RunPrefix(events, stores);
      ConsistentPrefix(u, events);
      DeliveredPrefix(events);
      NothingLost(u, front, stores[..|stores|-1]);
      var staged: map<Key, Row> :| Staged(before.rows, spans, staged) && Walked(staged, TracesOf(spans), after.rows);
      forall s <- Delivered(events) ensures s.RowKey() in after.rows && after.rows[s.RowKey()].span == s {
        if s.RowKey() in KeysOf(spans) {
          assert staged[s.RowKey()].span in BatchOf(spans) && staged[s.RowKey()].span.RowKey() == s.RowKey();
        }
      }
    }
  }

  // ---------------------------------------------------------------- main results

  /** Index rows never dangle, name only issues that were delivered, and cover every stored carrier,
      whatever payloads and restarts came before. */
  lemma IndexSound(events: seq<Event>, stores: seq<Store>)
    requires Run(events, stores)
    ensures var st := stores[|stores|-1];
      && (forall e <- st.index :: e.key in st.rows)
      && (forall t, i :: Linked(st, t, i) ==> Carried(Delivered(events), t, i))
      && (forall k, i :: k in st.rows && i in st.rows[k].span.issues ==> Linked(st, k.trace, i))
  {
    RunKeepsIndex(events, stores);
    var st := stores[|stores|-1];
    forall k, i | k in st.rows && i in st.rows[k].span.issues ensures Linked(st, k.trace, i) {
      assert Entry(k, i) in st.index;
    }
  }

  /** Without retention, a (trace, issue) pair is indexed if and only if a naive scan finds it. */
  lemma IndexIsNaiveScan(u: map<Key, Span>, events: seq<Event>, stores: seq<Store>, trace: string, issue: string)
    requires Run(events, stores) && Consistent(u, events) && forall e <- events :: e.Deliver?
    ensures Linked(stores[|stores|-1], trace, issue) <==> Carried(Delivered(events), trace, issue)
  {
    IndexSound(events, stores);
    NothingLost(u, events, stores);
    if Carried(Delivered(events), trace, issue) {
      var s :| s in Delivered(events) && s.trace == trace && issue in s.issues;
      assert Linked(stores[|stores|-1], s.RowKey().trace, issue);
    }
  }

  // ---------------------------------------------------------------- querying by issue

  /** The unfiltered query: all spans of the traces linked to the issue ("_" asks by trace id instead). */
  ghost predicate Selected(st: Store, issue: string, k: Key) {
    issue != "_" && k in st.rows && Linked(st, k.trace, issue)
  }

  function RowStart(r: Row): int { r.span.start }

  method SelectRows(rows: map<Key, Row>, traces: set<string>) returns (found: seq<Row>)
    requires KeyedRows(rows)
    ensures Distinct(found)
    ensures forall r :: r in found <==> r.span.RowKey() in rows && r.span.trace in traces && rows[r.span.RowKey()] == r
  {
    found := [];
    var todo := set k | k in rows && k.trace in traces;
    while todo != {}
      invariant todo <= rows.Keys && Distinct(found)
      invariant forall k <- todo :: k.trace in traces
      invariant forall r :: r in found <==>
        r.span.RowKey() in rows.Keys - todo && r.span.trace in traces && rows[r.span.RowKey()] == r
    {
      var k :| k in todo;
      assert rows[k] !in found;
      found := found + [rows[k]];
      todo := todo - {k};
    }
  }

  method QuerySpans(st: Store, issue: string) returns (result: seq<Row>)
    requires KeyedRows(st.rows)
    ensures SortedBy(RowStart, result) && Distinct(result)
    ensures forall r :: r in result <==> Selected(st, issue, r.span.RowKey()) && st.rows[r.span.RowKey()] == r
  {
    if issue == "_" {
      return [];
    }
    var traces := set e | e in st.index && e.issue == issue :: e.key.trace;
    forall t ensures t in traces <==> Linked(st, t, issue) {
    }
    var found := SelectRows(st.rows, traces);
    result := SortBy(RowStart, found);
    SortMembers(RowStart, found);
    SortDistinct(RowStart, found);
  }

  /** What the query selects: every delivered span of every trace in which some span carried the issue. */
  lemma QueryIsNaiveScan(u: map<Key, Span>, events: seq<Event>, stores: seq<Store>, issue: string, k: Key)
    requires Run(events, stores) && Consistent(u, events) && (forall e <- events :: e.Deliver?) && issue != "_"
    ensures Selected(stores[|stores|-1], issue, k) <==>
      exists s :: s in Delivered(events) && s.RowKey() == k && Carried(Delivered(events), s.trace, issue)
  {
    IndexIsNaiveScan(u, events, stores, k.trace, issue);
    NothingLost(u, events, stores);
    RunKeepsIndex(events, stores);
  }
}

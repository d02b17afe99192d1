/** The span table and its issue index: ingestion, the walk over stored rows, queries and start-up cleanup. */
module TraceStore {
  import opened Common
  import opened Sorting
  import opened TraceSpans
  import opened TraceWalk

  /** A stored span: the span as delivered, its propagated agent type, and its jira_issue column. */
  datatype Row = Row(span: Span, agentType: Option<string>, column: set<string>)

  datatype Entry = Entry(key: Key, issue: string)

  /** The two tables. */
  datatype Store = Store(rows: map<Key, Row>, index: set<Entry>)

  datatype Update = Update(agentType: string, key: Key)

  // ---------------------------------------------------------------- what each operation does to the tables

  ghost predicate KeyedRows(rows: map<Key, Row>) { forall k <- rows :: rows[k].span.RowKey() == k }

  ghost function BatchOf(spans: seq<Span>): set<Span> { set s | s in spans }

  ghost function KeysOf(spans: seq<Span>): set<Key> { set s | s in spans :: s.RowKey() }

  ghost function TracesOf(spans: seq<Span>): set<string> { set s | s in spans :: s.trace }

  /** spans[i] is the last of the first n spans with key k. */
  ghost predicate LastOf(spans: seq<Span>, n: int, i: int, k: Key) {
    0 <= i < n <= |spans| && spans[i].RowKey() == k && forall j :: i < j < n ==> spans[j].RowKey() != k
  }

  /** Insert-or-replace of a payload whose rows carry in-memory types and merged issues; the last row of a key stays. */
  ghost predicate Staged(before: map<Key, Row>, spans: seq<Span>, after: map<Key, Row>) {
    && after.Keys == before.Keys + KeysOf(spans)
    && (forall k <- before :: k !in KeysOf(spans) ==> after[k] == before[k])
    && (forall k <- after :: k in KeysOf(spans) ==>
          && (exists i :: LastOf(spans, |spans|, i, k) && spans[i] == after[k].span)
          && MemOutcome(BatchOf(spans), after[k].span, after[k].agentType)
          && after[k].column == MergedIssues(BatchOf(spans), k.trace))
  }

  /** In a table, the nearest row at or above k with a type has type t. */
  ghost predicate StoredReach(rows: map<Key, Row>, k: Key, n: nat, t: string)
    decreases n
  {
    && k in rows
    && if rows[k].agentType.Some? then n == 0 && rows[k].agentType == Some(t)
       else n > 0 && rows[k].span.parent != "" && StoredReach(rows, ParentKey(rows, k), n - 1, t)
  }

  ghost predicate StoredReaches(rows: map<Key, Row>, k: Key, t: string) { exists n :: StoredReach(rows, k, n, t) }

  function ParentKey(rows: map<Key, Row>, k: Key): Key
    requires k in rows
  {
    Key(k.trace, rows[k].span.parent)
  }

  predicate Untyped(rows: map<Key, Row>, traces: set<string>, k: Key) {
    k in rows && k.trace in traces && rows[k].agentType.None?
  }

  /** Untyped rows of the affected traces take the type above them; nothing else changes. */
  ghost predicate Walked(before: map<Key, Row>, traces: set<string>, after: map<Key, Row>) {
    && after.Keys == before.Keys
    && forall k <- before ::
         && after[k].span == before[k].span && after[k].column == before[k].column
         && if Untyped(before, traces, k)
            then (after[k].agentType.Some? && StoredReaches(before, k, after[k].agentType.value))
              || (after[k].agentType.None? && forall t :: !StoredReaches(before, k, t))
            else after[k].agentType == before[k].agentType
  }

  /** Index rows linking every span of a trace to the payload's issues for that trace. */
  ghost function LinkedBy(rows: map<Key, Row>, spans: seq<Span>): set<Entry> {
    set k, i | k in rows && i in MergedIssues(BatchOf(spans), k.trace) :: Entry(k, i)
  }

  /** Index rows of redelivered spans are rebuilt; every stored span of a trace gets the payload's issues. */
  ghost function Reindexed(index: set<Entry>, rows: map<Key, Row>, spans: seq<Span>): set<Entry> {
    (set e | e in index && e.key !in KeysOf(spans))
    + LinkedBy(rows, spans)
  }

  ghost predicate Ingested(before: Store, spans: seq<Span>, after: Store) {
    && (exists staged :: Staged(before.rows, spans, staged) && Walked(staged, TracesOf(spans), after.rows))
    && after.index == Reindexed(before.index, after.rows, spans)
  }

  /** Start-up: backfill an empty index from the column, then drop everything older than the cutoff. */
  ghost predicate Restarted(before: Store, cutoff: int, after: Store) {
    var filled := if before.index == {} then (set k, i | k in before.rows && i in before.rows[k].column :: Entry(k, i))
                  else before.index;
    && after.rows == (map k | k in before.rows && before.rows[k].span.start >= cutoff :: before.rows[k])
    && after.index == set e | e in filled && !(e.key in before.rows && before.rows[e.key].span.start < cutoff)
  }

  // ---------------------------------------------------------------- the walk over stored rows

  /** children maps a parent's key to its untyped children, each once. */
  ghost predicate UntypedChildren(rows: map<Key, Row>, traces: set<string>, children: map<Key, seq<Key>>) {
    && (forall p <- children :: Distinct(children[p]))
    && (forall p, c :: p in children && c in children[p] ==> IsUntypedChild(rows, traces, p, c))
    && (forall c <- rows :: Untyped(rows, traces, c) && rows[c].span.parent != "" ==>
          ParentKey(rows, c) in children && c in children[ParentKey(rows, c)])
  }

  predicate IsUntypedChild(rows: map<Key, Row>, traces: set<string>, p: Key, c: Key) {
    Untyped(rows, traces, c) && rows[c].span.parent != "" && ParentKey(rows, c) == p
  }

  function ChildKeys(ghost rows: map<Key, Row>, ghost traces: set<string>, children: map<Key, seq<Key>>, p: Key): (cs: seq<Key>)
    requires UntypedChildren(rows, traces, children)
    ensures Distinct(cs)
    ensures forall c :: c in cs <==> IsUntypedChild(rows, traces, p, c)
  {
    if p in children then children[p] else []
  }

  /** State of the walk: rows updated so far, rows on the stack, typed rows started from. */
  ghost predicate Frontier(rows: map<Key, Row>, traces: set<string>, emitted: set<Key>, stack: seq<Key>, roots: set<Key>) {
    && Distinct(stack)
    && (forall c <- stack :: c !in emitted)
    && (forall r <- roots :: r in rows && rows[r].agentType.Some?)
    && (forall c :: c in emitted || c in stack ==>
          Untyped(rows, traces, c) && rows[c].span.parent != "" && ParentKey(rows, c) in emitted + roots)
    && (forall c <- rows :: Untyped(rows, traces, c) && rows[c].span.parent != "" && ParentKey(rows, c) in emitted + roots ==>
          c in emitted || c in stack)
  }

  /** A popped row's children were never seen before: each has one parent, popped just now. This is what
      ends the walk although it keeps no visited set. */
  lemma PopKeepsFrontier(rows: map<Key, Row>, traces: set<string>, emitted: set<Key>, stack: seq<Key>, roots: set<Key>, kids: seq<Key>)
    requires Frontier(rows, traces, emitted, stack, roots) && stack != []
    requires Distinct(kids) && forall c :: c in kids <==> IsUntypedChild(rows, traces, stack[|stack| - 1], c)
    ensures Frontier(rows, traces, emitted + {stack[|stack| - 1]}, stack[..|stack| - 1] + kids, roots)
  {
    var top := stack[|stack| - 1];
    var rest := stack[..|stack| - 1];
    assert stack == rest + [top];
    assert top !in rest;
    forall c <- kids ensures c !in emitted && c !in stack {
      assert ParentKey(rows, c) == top && top !in emitted && top !in roots;
    }
    DistinctConcat(rest, kids);
  }

  lemma StartKeepsFrontier(rows: map<Key, Row>, traces: set<string>, emitted: set<Key>, roots: set<Key>, root: Key, kids: seq<Key>)
    requires Frontier(rows, traces, emitted, [], roots)
    requires root in rows && rows[root].agentType.Some? && root !in roots
    requires Distinct(kids) && forall c :: c in kids <==> IsUntypedChild(rows, traces, root, c)
    ensures Frontier(rows, traces, emitted, kids, roots + {root})
  {
    forall c <- kids ensures c !in emitted {
      assert ParentKey(rows, c) == root;
    }
  }

  lemma {:induction false} FrontierIsComplete(rows: map<Key, Row>, traces: set<string>, emitted: set<Key>, roots: set<Key>,
                                              k: Key, n: nat, t: string)
    requires Frontier(rows, traces, emitted, [], roots)
    requires forall r <- rows :: r.trace in traces && rows[r].agentType.Some? ==> r in roots
    requires Untyped(rows, traces, k) && StoredReach(rows, k, n, t)
    ensures k in emitted
    decreases n
  {
    var p := ParentKey(rows, k);
    if rows[p].agentType.None? {
      FrontierIsComplete(rows, traces, emitted, roots, p, n - 1, t);
    }
  }

  ghost function KeySet(ks: seq<Key>): set<Key> { set k | k in ks }

  ghost function UpdatedKeys(us: seq<Update>): set<Key> { set u | u in us :: u.key }

  /** Every stored row of the given traces that has (or lacks) a type, once each, in any order. */
  method Select(rows: map<Key, Row>, traces: set<string>, typed: bool) returns (ks: seq<Key>)
    ensures Distinct(ks)
    ensures forall k :: k in ks <==> k in rows && k.trace in traces && rows[k].agentType.Some? == typed
  {
    ks := [];
    var todo := set k | k in rows && k.trace in traces && rows[k].agentType.Some? == typed;
    ghost var all := todo;
    while todo != {}
      invariant todo <= all && Distinct(ks)
      invariant forall k :: k in ks <==> k in all && k !in todo
    {
      var k :| k in todo;
      ks := ks + [k];
      todo := todo - {k};
    }
  }

  method IndexChildren(rows: map<Key, Row>, traces: set<string>, nullRows: seq<Key>) returns (children: map<Key, seq<Key>>)
    requires Distinct(nullRows) && forall k :: k in nullRows <==> Untyped(rows, traces, k)
    ensures UntypedChildren(rows, traces, children)
  {
    children := map[];
    forall j | 0 <= j < |nullRows| ensures Untyped(rows, traces, nullRows[j]) {
      assert nullRows[j] in nullRows;
    }
    for i := 0 to |nullRows|
      invariant forall p <- children :: Distinct(children[p])
      invariant forall p, c :: p in children && c in children[p] ==> c in nullRows[..i] && IsUntypedChild(rows, traces, p, c)
      invariant forall j :: 0 <= j < i && rows[nullRows[j]].span.parent != "" ==>
        ParentKey(rows, nullRows[j]) in children && nullRows[j] in children[ParentKey(rows, nullRows[j])]
    {
      var c := nullRows[i];
      assert c !in nullRows[..i];
      assert nullRows[..i+1] == nullRows[..i] + [c];
      if rows[c].span.parent != "" {
        var p := ParentKey(rows, c);
        children := children[p := (if p in children then children[p] else []) + [c]];
      }
    }
  }

  ghost predicate UpdatesSound(rows: map<Key, Row>, updates: seq<Update>) {
    forall u <- updates :: StoredReaches(rows, u.key, u.agentType)
  }

  lemma AppendUpdate(rows: map<Key, Row>, updates: seq<Update>, u: Update)
    requires UpdatesSound(rows, updates) && StoredReaches(rows, u.key, u.agentType)
    requires Distinct(updates) && |UpdatedKeys(updates)| == |updates| && u.key !in UpdatedKeys(updates)
    ensures UpdatesSound(rows, updates + [u])
    ensures UpdatedKeys(updates + [u]) == UpdatedKeys(updates) + {u.key}
    ensures Distinct(updates + [u]) && |UpdatedKeys(updates + [u])| == |updates| + 1
  {
    DistinctConcat(updates, [u]);
  }

  lemma KidsReach(rows: map<Key, Row>, traces: set<string>, p: Key, kids: seq<Key>, t: string)
    requires StoredReaches(rows, p, t) && forall c <- kids :: IsUntypedChild(rows, traces, p, c)
    ensures forall c <- kids :: StoredReaches(rows, c, t)
  {
    var n: nat :| StoredReach(rows, p, n, t);
    forall c <- kids ensures StoredReaches(rows, c, t) {
      assert StoredReach(rows, c, n + 1, t);
    }
  }

  /** Depth-first below one typed row, without a visited set. */
  method WalkBelow(rows: map<Key, Row>, traces: set<string>, children: map<Key, seq<Key>>, root: Key,
                   updates0: seq<Update>, ghost roots: set<Key>)
    returns (updates: seq<Update>)
    requires UntypedChildren(rows, traces, children)
    requires root in rows && rows[root].agentType.Some? && root !in roots
    requires Distinct(updates0) && |UpdatedKeys(updates0)| == |updates0|
    requires Frontier(rows, traces, UpdatedKeys(updates0), [], roots)
    requires UpdatesSound(rows, updates0)
    ensures |UpdatedKeys(updates)| == |updates| && Distinct(updates)
    ensures Frontier(rows, traces, UpdatedKeys(updates), [], roots + {root})
    ensures UpdatesSound(rows, updates)
  {
    updates := updates0;
    var ty := rows[root].agentType.value;
    var stack := ChildKeys(rows, traces, children, root);
    StartKeepsFrontier(rows, traces, UpdatedKeys(updates), roots, root, stack);
    ghost var untyped := set k | k in rows && Untyped(rows, traces, k);
    assert StoredReach(rows, root, 0, ty);
    KidsReach(rows, traces, root, stack, ty);
    while stack != []
      invariant Distinct(updates) && |UpdatedKeys(updates)| == |updates|
      invariant Frontier(rows, traces, UpdatedKeys(updates), stack, roots + {root})
      invariant UpdatesSound(rows, updates)
      invariant forall c <- stack :: StoredReaches(rows, c, ty)
      decreases untyped - UpdatedKeys(updates)
    {
      var child := stack[|stack| - 1];
      var kids := ChildKeys(rows, traces, children, child);
      PopKeepsFrontier(rows, traces, UpdatedKeys(updates), stack, roots + {root}, kids);
      KidsReach(rows, traces, child, kids, ty);
      AppendUpdate(rows, updates, Update(ty, child));
      updates := updates + [Update(ty, child)];
      stack := stack[..|stack| - 1] + kids;
    }
  }

  /** The updates for one ingest: at most one per untyped row. */
  method StoredUpdates(rows: map<Key, Row>, traces: set<string>) returns (updates: seq<Update>)
    ensures |UpdatedKeys(updates)| == |updates|
    ensures forall u <- updates :: Untyped(rows, traces, u.key) && StoredReaches(rows, u.key, u.agentType)
    ensures forall k, t :: Untyped(rows, traces, k) && StoredReaches(rows, k, t) ==> k in UpdatedKeys(updates)
  {
    var agentRows := Select(rows, traces, true);
    var nullRows := Select(rows, traces, false);
    var children := IndexChildren(rows, traces, nullRows);
    updates := [];
    for i := 0 to |agentRows|
      invariant Distinct(updates) && |UpdatedKeys(updates)| == |updates|
      invariant Frontier(rows, traces, UpdatedKeys(updates), [], KeySet(agentRows[..i]))
      invariant UpdatesSound(rows, updates)
    {
      assert agentRows[..i+1] == agentRows[..i] + [agentRows[i]];
      assert KeySet(agentRows[..i+1]) == KeySet(agentRows[..i]) + {agentRows[i]};
      updates := WalkBelow(rows, traces, children, agentRows[i], updates, KeySet(agentRows[..i]));
    }
    assert agentRows[..|agentRows|] == agentRows;
    forall k, t, n | Untyped(rows, traces, k) && StoredReach(rows, k, n, t) ensures k in UpdatedKeys(updates) {
      FrontierIsComplete(rows, traces, UpdatedKeys(updates), KeySet(agentRows), k, n, t);
    }
    forall u <- updates ensures Untyped(rows, traces, u.key) {
      assert u.key in UpdatedKeys(updates);
    }
  }

  // ---------------------------------------------------------------- the server's state

  /** Rows for the spans of one payload, with propagated types and issues. */
  method ExtractRows(spans: seq<Span>) returns (batch: seq<SpanRow>)
    ensures |batch| == |spans| && forall i :: 0 <= i < |spans| ==>
      && batch[i].span == spans[i]
      && MemOutcome(BatchOf(spans), spans[i], batch[i].agentType)
      && batch[i].issues == MergedIssues(BatchOf(spans), spans[i].trace)
  {
    batch := [];
    for i := 0 to |spans|
      invariant |batch| == i && fresh(set r | r in batch)
      invariant forall j :: 0 <= j < i ==> batch[j].span == spans[j]
      invariant forall r <- batch :: r.agentType == r.span.own && r.issues == r.span.issues
    {
      var row := new SpanRow(spans[i]);
      batch := batch + [row];
    }
    assert Batch(batch) == BatchOf(spans) by {
      forall s <- BatchOf(spans) ensures s in Batch(batch) {
        var i :| 0 <= i < |spans| && spans[i] == s;
        assert batch[i].span == s;
      }
    }
    PropagateAgentTypes(batch);
    PropagateJiraIssues(batch);
    forall i | 0 <= i < |spans| ensures MemOutcome(BatchOf(spans), spans[i], batch[i].agentType) {
      assert batch[i] in batch;
    }
  }

  method StageRows(rows: map<Key, Row>, spans: seq<Span>, batch: seq<SpanRow>) returns (staged: map<Key, Row>)
    requires |batch| == |spans| && forall i :: 0 <= i < |spans| ==>
      && batch[i].span == spans[i]
      && MemOutcome(BatchOf(spans), spans[i], batch[i].agentType)
      && batch[i].issues == MergedIssues(BatchOf(spans), spans[i].trace)
    ensures Staged(rows, spans, staged)
  {
    staged := rows;
    for i := 0 to |batch|
      invariant staged.Keys == rows.Keys + KeysOf(spans[..i])
      invariant forall k <- rows :: k !in KeysOf(spans[..i]) ==> staged[k] == rows[k]
      invariant forall k <- staged :: k in KeysOf(spans[..i]) ==>
        exists j :: LastOf(spans, i, j, k) && staged[k] == Row(spans[j], batch[j].agentType, batch[j].issues)
    {
      assert spans[..i+1] == spans[..i] + [spans[i]];
      assert KeysOf(spans[..i+1]) == KeysOf(spans[..i]) + {spans[i].RowKey()};
      ghost var before := staged;
      staged := staged[batch[i].span.RowKey() := Row(batch[i].span, batch[i].agentType, batch[i].issues)];
      forall k <- staged | k in KeysOf(spans[..i+1])
        ensures exists j :: LastOf(spans, i + 1, j, k) && staged[k] == Row(spans[j], batch[j].agentType, batch[j].issues)
      {
        if k == spans[i].RowKey() {
          assert LastOf(spans, i + 1, i, k);
        } else {
          var j :| LastOf(spans, i, j, k) && before[k] == Row(spans[j], batch[j].agentType, batch[j].issues);
          assert LastOf(spans, i + 1, j, k);
        }
      }
    }
    assert spans[..|spans|] == spans;
  }

  /** The first n updates are in the rows. */
  ghost predicate Updated(rows: map<Key, Row>, updates: seq<Update>, n: nat, walked: map<Key, Row>)
    requires n <= |updates|
  {
    && walked.Keys == rows.Keys
    && (forall k <- rows :: walked[k].span == rows[k].span && walked[k].column == rows[k].column)
    && (forall k <- rows :: k !in UpdatedKeys(updates[..n]) ==> walked[k] == rows[k])
    && (forall k <- rows :: k in UpdatedKeys(updates[..n]) ==> UpdatedBy(updates, n, k, walked[k].agentType))
  }

  ghost predicate UpdatedBy(updates: seq<Update>, n: nat, k: Key, agentType: Option<string>)
    requires n <= |updates|
  {
    exists j :: 0 <= j < n && updates[j].key == k && agentType == Some(updates[j].agentType)
  }

  lemma UpdateOne(rows: map<Key, Row>, updates: seq<Update>, i: nat, walked: map<Key, Row>)
    requires i < |updates| && updates[i].key in rows && Updated(rows, updates, i, walked)
    ensures var u := updates[i];
      Updated(rows, updates, i + 1, walked[u.key := walked[u.key].(agentType := Some(u.agentType))])
  {
    var u := updates[i];
    var after := walked[u.key := walked[u.key].(agentType := Some(u.agentType))];
    assert updates[..i+1] == updates[..i] + [u];
    assert UpdatedKeys(updates[..i+1]) == UpdatedKeys(updates[..i]) + {u.key};
    forall k <- rows | k in UpdatedKeys(updates[..i+1]) ensures UpdatedBy(updates, i + 1, k, after[k].agentType) {
      if k != u.key {
        assert UpdatedBy(updates, i, k, walked[k].agentType);
      }
    }
  }

  lemma UpdatedIsWalked(rows: map<Key, Row>, traces: set<string>, updates: seq<Update>, walked: map<Key, Row>)
    requires UpdatesSound(rows, updates) && forall u <- updates :: Untyped(rows, traces, u.key)
    requires forall k, t :: Untyped(rows, traces, k) && StoredReaches(rows, k, t) ==> k in UpdatedKeys(updates)
    requires Updated(rows, updates, |updates|, walked)
    ensures Walked(rows, traces, walked)
  {
    assert updates[..|updates|] == updates;
    forall k <- rows | k in UpdatedKeys(updates)
      ensures Untyped(rows, traces, k) && walked[k].agentType.Some? && StoredReaches(rows, k, walked[k].agentType.value)
    {
      assert UpdatedBy(updates, |updates|, k, walked[k].agentType);
    }
  }

  method ApplyUpdates(rows: map<Key, Row>, traces: set<string>, updates: seq<Update>) returns (walked: map<Key, Row>)
    requires UpdatesSound(rows, updates) && forall u <- updates :: Untyped(rows, traces, u.key)
    requires forall k, t :: Untyped(rows, traces, k) && StoredReaches(rows, k, t) ==> k in UpdatedKeys(updates)
    ensures Walked(rows, traces, walked)
  {
    walked := rows;
    for i := 0 to |updates|
      invariant Updated(rows, updates, i, walked)
    {
      var u := updates[i];
      assert Untyped(rows, traces, u.key);
      UpdateOne(rows, updates, i, walked);
      walked := walked[u.key := walked[u.key].(agentType := Some(u.agentType))];
    }
    UpdatedIsWalked(rows, traces, updates, walked);
  }

  lemma IndexDone(index: set<Entry>, staged: map<Key, Row>, rows: map<Key, Row>, spans: seq<Span>, added: set<Entry>)
    requires staged.Keys == rows.Keys
    requires var kept := set e | e in index && e.key !in KeysOf(spans); kept <= added <= kept + LinkedBy(staged, spans)
    ensures added + LinkedBy(rows, spans) == Reindexed(index, rows, spans)
  {
    assert LinkedBy(staged, spans) == LinkedBy(rows, spans);
  }

  lemma IngestedBy(before: Store, spans: seq<Span>, staged: map<Key, Row>, after: Store)
    requires Staged(before.rows, spans, staged) && Walked(staged, TracesOf(spans), after.rows)
    requires after.index == Reindexed(before.index, after.rows, spans)
    ensures Ingested(before, spans, after)
  {
  }

  class TraceServer {
    var rows: map<Key, Row>
    var index: set<Entry>

    ghost function Value(): Store reads this { Store(rows, index) }

    constructor ()
      ensures Value() == Store(map[], {})
    {
      rows, index := map[], {};
    }

    /** Store a payload: insert or replace its spans, rebuild their index rows, complete agent types in the
        affected traces, and link the payload's issues to every span of their traces. */
    method Ingest(spans: seq<Span>)
      modifies this
      ensures Ingested(old(Value()), spans, Value())
    {
      if spans == [] {
        assert Staged(rows, spans, rows) && Walked(rows, TracesOf(spans), rows);
        return;
      }
      var batch := ExtractRows(spans);
      var traces := set s | s in spans :: s.trace;
      var staged := StageRows(rows, spans, batch);
      DropIndexRows(spans);
      AddIndexRows(staged, spans, batch);
      var updates := StoredUpdates(staged, traces);
      rows := ApplyUpdates(staged, traces, updates);
      ghost var added := index;
      SpreadIssues(spans, batch);
      IndexDone(old(index), staged, rows, spans, added);
      IngestedBy(old(Value()), spans, staged, Value());
    }

    method DropIndexRows(spans: seq<Span>)
      modifies this`index
      ensures index == set e | e in old(index) && e.key !in KeysOf(spans)
    {
      for i := 0 to |spans|
        invariant index == set e | e in old(index) && e.key !in KeysOf(spans[..i])
      {
        assert spans[..i+1] == spans[..i] + [spans[i]];
        assert KeysOf(spans[..i+1]) == KeysOf(spans[..i]) + {spans[i].RowKey()};
        index := set e | e in index && e.key != spans[i].RowKey();
      }
      assert spans[..|spans|] == spans;
    }

    method AddIndexRows(ghost staged: map<Key, Row>, spans: seq<Span>, batch: seq<SpanRow>)
      requires |batch| == |spans| && Staged(rows, spans, staged)
      requires forall i :: 0 <= i < |spans| ==>
        batch[i].span == spans[i] && batch[i].issues == MergedIssues(BatchOf(spans), spans[i].trace)
      modifies this`index
      ensures old(index) <= index <= old(index) + LinkedBy(staged, spans)
    {
      for i := 0 to |batch|
        invariant old(index) <= index <= old(index) + LinkedBy(staged, spans)
      {
        var key := batch[i].span.RowKey();
        assert key in KeysOf(spans);
        index := index + set x | x in batch[i].issues :: Entry(key, x);
      }
    }

    method SpreadIssues(spans: seq<Span>, batch: seq<SpanRow>)
      requires |batch| == |spans| && forall i :: 0 <= i < |spans| ==>
        batch[i].span == spans[i] && batch[i].issues == MergedIssues(BatchOf(spans), spans[i].trace)
      modifies this`index
      ensures index == old(index) + LinkedBy(rows, spans)
    {
      for i := 0 to |batch|
        invariant old(index) <= index <= old(index) + LinkedBy(rows, spans)
        invariant forall k, j, x :: k in rows && 0 <= j < i && spans[j].trace == k.trace && x in batch[j].issues ==>
          Entry(k, x) in index
      {
        var trace := batch[i].span.trace;
        index := index + set k, x | k in rows && k.trace == trace && x in batch[i].issues :: Entry(k, x);
      }
      forall e <- LinkedBy(rows, spans) ensures e in index {
        var s :| s in spans && s.trace == e.key.trace && e.issue in s.issues;
        var j :| 0 <= j < |spans| && spans[j] == s;
      }
    }

    /** Backfill an empty index, then remove spans that started before the cutoff, and their index rows. */
    method InitDb(cutoff: int)
      modifies this
      ensures forall k :: k in rows <==> k in old(rows) && old(rows)[k].span.start >= cutoff
      ensures forall k <- rows :: rows[k] == old(rows)[k]
      ensures (forall e <- old(index) :: e.key in old(rows)) ==> forall e <- index :: e.key in rows
      ensures forall e <- old(index) :: e.key in rows ==> e in index
      ensures old(index) == {} ==> forall k, i :: k in rows && i in rows[k].column ==> Entry(k, i) in index
      ensures Restarted(old(Value()), cutoff, Value())
    {
      if index == {} {
        index := set k, x | k in rows && x in rows[k].column :: Entry(k, x);
      }
      index := set e | e in index && !(e.key in rows && rows[e.key].span.start < cutoff);
      rows := map k | k in rows && rows[k].span.start >= cutoff :: rows[k];
    }
  }
}

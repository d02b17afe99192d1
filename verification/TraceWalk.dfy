/** The in-memory propagation over one payload: agent types down parent links, issues across a trace. */
module TraceWalk {
  import opened Common
  import opened TraceSpans

  class SpanRow {
    const span: Span
    var agentType: Option<string>
    var issues: set<string>

    constructor (span: Span)
      ensures this.span == span && agentType == span.own && issues == span.issues
    {
      this.span := span;
      agentType := span.own;
      issues := span.issues;
    }

    predicate Truthy() reads this`agentType { agentType.Some? && agentType.value != "" }
  }

  ghost function Batch(rows: seq<SpanRow>): set<Span> { set r | r in rows :: r.span }

  function Ids(rows: seq<SpanRow>): set<string> { set r | r in rows :: r.span.id }

  datatype Pending = Pending(id: string, agentType: string)

  // ---------------------------------------------------------------- invariants of the walk

  /** Every type put into a row so far is justified by a typed span above it. */
  ghost predicate Sound(rows: seq<SpanRow>)
    reads set r | r in rows
  {
    forall r <- rows ::
      || r.agentType == r.span.own
      || (r.agentType.Some? && r.agentType.value != "" && MemReaches(Batch(rows), r.span, r.agentType.value))
  }

  ghost predicate TypedKept(rows: seq<SpanRow>)
    reads set r | r in rows
  {
    forall r <- rows :: r.span.Typed() ==> r.agentType == r.span.own
  }

  /** An id waiting on the stack comes with a type that its own row may have. */
  ghost predicate Justified(rows: seq<SpanRow>, e: Pending) {
    && e.agentType != ""
    && (e.id != "" ==> exists p :: p in Batch(rows) && p.id == e.id && MemReaches(Batch(rows), p, e.agentType))
  }

  /** All children of a visited id have a type. */
  ghost predicate Closed(rows: seq<SpanRow>, visited: set<string>)
    reads set r | r in rows
  {
    forall r <- rows :: r.span.parent != "" && r.span.parent in visited ==> r.Truthy()
  }

  ghost function OnStack(stack: seq<Pending>): set<string> { set x | x in stack :: x.id }

  /** Stack entries are justified and name ids of the batch. */
  ghost predicate StackSound(rows: seq<SpanRow>, stack: seq<Pending>) {
    forall x <- stack :: Justified(rows, x) && (x.id == "" || x.id in Ids(rows))
  }

  /** The id of a row with a type is visited, on the stack, or among the roots still to start from. */
  ghost predicate Covered(rows: seq<SpanRow>, visited: set<string>, stack: seq<Pending>, roots: set<string>)
    reads set r | r in rows
  {
    forall r <- rows :: r.Truthy() && r.span.id != "" ==>
      r.span.id in visited + roots + OnStack(stack)
  }

  /** children maps a parent id to exactly the rows that name it. */
  ghost predicate ChildIndex(rows: seq<SpanRow>, children: map<string, seq<SpanRow>>) {
    && (forall p, c :: p in children && c in children[p] ==> c in rows && c.span.parent == p != "")
    && (forall r <- rows :: r.span.parent != "" ==> r.span.parent in children && r in children[r.span.parent])
  }

  function KidsOf(ghost rows: seq<SpanRow>, children: map<string, seq<SpanRow>>, id: string): (kids: seq<SpanRow>)
    requires ChildIndex(rows, children) && id != ""
    ensures forall c <- kids :: c in rows && c.span.parent == id
    ensures forall r <- rows :: r.span.parent == id ==> r in kids
  {
    if id in children then children[id] else []
  }

  lemma {:induction false} ClosedIsComplete(rows: seq<SpanRow>, visited: set<string>, s: Span, n: nat, t: string)
    requires Sound(rows) && TypedKept(rows) && Closed(rows, visited) && Covered(rows, visited, [], {})
    requires s in Batch(rows) && MemReach(Batch(rows), s, n, t)
    ensures forall r <- rows :: r.span == s ==> r.Truthy()
    decreases n
  {
    if !s.Typed() {
      var p :| MemParent(Batch(rows), s, p) && MemReach(Batch(rows), p, n - 1, t);
      ClosedIsComplete(rows, visited, p, n - 1, t);
      var above :| above in rows && above.span == p;
      assert above.Truthy() && above.span.id != "";
      assert s.parent in visited;
    }
  }

  // ---------------------------------------------------------------- the walk

  method TypedRoots(rows: seq<SpanRow>) returns (roots: map<string, string>)
    requires forall r <- rows :: r.agentType == r.span.own
    ensures forall id :: id in roots ==> id != "" && Justified(rows, Pending(id, roots[id]))
    ensures forall r <- rows :: r.Truthy() && r.span.id != "" ==> r.span.id in roots
    ensures roots.Keys <= Ids(rows)
  {
    roots := map[];
    for i := 0 to |rows|
      invariant forall id :: id in roots ==> id != "" && Justified(rows, Pending(id, roots[id]))
      invariant forall j :: 0 <= j < i && rows[j].Truthy() && rows[j].span.id != "" ==> rows[j].span.id in roots
      invariant roots.Keys <= Ids(rows)
    {
      var s := rows[i];
      if s.Truthy() && s.span.id != "" {
        assert s.span in Batch(rows) && MemReach(Batch(rows), s.span, 0, s.agentType.value);
        roots := roots[s.span.id := s.agentType.value];
      }
    }
  }

  method ChildrenOf(rows: seq<SpanRow>) returns (children: map<string, seq<SpanRow>>)
    ensures ChildIndex(rows, children)
  {
    children := map[];
    for i := 0 to |rows|
      invariant forall p, c :: p in children && c in children[p] ==> c in rows && c.span.parent == p != ""
      invariant forall j :: 0 <= j < i && rows[j].span.parent != "" ==>
        rows[j].span.parent in children && rows[j] in children[rows[j].span.parent]
    {
      var p := rows[i].span.parent;
      if p != "" {
        children := children[p := (if p in children then children[p] else []) + [rows[i]]];
      }
    }
  }

  /** Give a child the type of its visited parent unless it has one, and push it. */
  method VisitChild(rows: seq<SpanRow>, child: SpanRow, e: Pending, ghost visited: set<string>, ghost reached: set<string>,
                    stack: seq<Pending>, ghost roots: set<string>)
    returns (stack': seq<Pending>)
    requires child in rows && e.id != "" && child.span.parent == e.id && Justified(rows, e)
    requires Sound(rows) && TypedKept(rows) && Closed(rows, visited) && Covered(rows, reached, stack, roots)
    requires StackSound(rows, stack)
    modifies child`agentType
    ensures child.Truthy() && (forall r <- rows :: old(r.Truthy()) ==> r.Truthy())
    ensures Sound(rows) && TypedKept(rows) && Closed(rows, visited) && Covered(rows, reached, stack', roots)
    ensures StackSound(rows, stack')
  {
    InheritFrom(rows, child, e);
    if !child.Truthy() {
      child.agentType := Some(e.agentType);
    }
    assert child.span in Batch(rows);
    var entry := Pending(child.span.id, child.agentType.value);
    assert Justified(rows, entry) by {
      if child.agentType == child.span.own {
        assert MemReach(Batch(rows), child.span, 0, child.agentType.value);
      }
    }
    stack' := stack + [entry];
    assert OnStack(stack') == OnStack(stack) + {entry.id};
  }

  /** One popped id: give its type to its untyped children and push all of them. */
  method Visit(rows: seq<SpanRow>, kids: seq<SpanRow>, e: Pending, ghost visited: set<string>,
               stack: seq<Pending>, ghost roots: set<string>)
    returns (stack': seq<Pending>)
    requires e.id != "" && Justified(rows, e) && e.id !in visited
    requires forall c <- kids :: c in rows && c.span.parent == e.id
    requires forall r <- rows :: r.span.parent == e.id ==> r in kids
    requires Sound(rows) && TypedKept(rows) && Closed(rows, visited)
    requires Covered(rows, visited + {e.id}, stack, roots) && StackSound(rows, stack)
    modifies (set r | r in rows)`agentType
    ensures Sound(rows) && TypedKept(rows) && Closed(rows, visited + {e.id})
    ensures Covered(rows, visited + {e.id}, stack', roots) && StackSound(rows, stack')
  {
    stack' := stack;
    for i := 0 to |kids|
      invariant Sound(rows) && TypedKept(rows) && Closed(rows, visited)
      invariant Covered(rows, visited + {e.id}, stack', roots) && StackSound(rows, stack')
      invariant forall j :: 0 <= j < i ==> kids[j].Truthy()
    {
      stack' := VisitChild(rows, kids[i], e, visited, visited + {e.id}, stack', roots);
    }
  }

  lemma InheritFrom(rows: seq<SpanRow>, child: SpanRow, e: Pending)
    requires child in rows && e.id != "" && child.span.parent == e.id && Justified(rows, e)
    ensures !child.span.Typed() ==> MemReaches(Batch(rows), child.span, e.agentType)
  {
    var b := Batch(rows);
    var p :| p in b && p.id == e.id && MemReaches(b, p, e.agentType);
    var n: nat :| MemReach(b, p, n, e.agentType);
    if !child.span.Typed() {
      assert MemParent(b, child.span, p);
      assert MemReach(b, child.span, n + 1, e.agentType);
    }
  }

  /** Pop one id; skip it if it is empty or was visited before. */
  method Pop(rows: seq<SpanRow>, children: map<string, seq<SpanRow>>, stack: seq<Pending>, visited: set<string>,
             ghost roots: set<string>)
    returns (stack': seq<Pending>, visited': set<string>)
    requires ChildIndex(rows, children) && stack != [] && StackSound(rows, stack)
    requires Sound(rows) && TypedKept(rows) && Closed(rows, visited) && Covered(rows, visited, stack, roots)
    modifies (set r | r in rows)`agentType
    ensures Sound(rows) && TypedKept(rows) && Closed(rows, visited') && Covered(rows, visited', stack', roots)
    ensures StackSound(rows, stack')
    ensures var id := stack[|stack|-1].id;
      || (visited' == visited && |stack'| < |stack|)
      || (id !in visited && id in Ids(rows) && visited' == visited + {id})
  {
    var e := stack[|stack| - 1];
    stack', visited' := stack[..|stack| - 1], visited;
    assert stack == stack' + [e];
    assert OnStack(stack) == OnStack(stack') + {e.id};
    if e.id != "" && e.id !in visited {
      var kids := KidsOf(rows, children, e.id);
      stack' := Visit(rows, kids, e, visited, stack', roots);
      visited' := visited + {e.id};
    }
  }

  /** Depth-first walk below one root; ids already visited are skipped, so it ends on cyclic links too. */
  method WalkFrom(rows: seq<SpanRow>, children: map<string, seq<SpanRow>>, root: Pending, visited0: set<string>,
                  ghost roots: set<string>)
    returns (visited: set<string>)
    requires ChildIndex(rows, children) && Justified(rows, root) && root.id in Ids(rows) && visited0 <= Ids(rows)
    requires Sound(rows) && TypedKept(rows) && Closed(rows, visited0) && Covered(rows, visited0, [], roots + {root.id})
    modifies (set r | r in rows)`agentType
    ensures visited <= Ids(rows)
    ensures Sound(rows) && TypedKept(rows) && Closed(rows, visited) && Covered(rows, visited, [], roots)
  {
    var stack := [root];
    assert OnStack(stack) == {root.id};
    visited := visited0;
    while stack != []
      invariant visited <= Ids(rows)
      invariant Sound(rows) && TypedKept(rows) && Closed(rows, visited) && Covered(rows, visited, stack, roots)
      invariant StackSound(rows, stack)
      decreases Ids(rows) - visited, |stack|
    {
      stack, visited := Pop(rows, children, stack, visited, roots);
    }
  }

  /** A root that the walk from another one visited is skipped. */
  method WalkRoot(rows: seq<SpanRow>, children: map<string, seq<SpanRow>>, root: Pending, visited0: set<string>,
                  ghost roots: set<string>)
    returns (visited: set<string>)
    requires ChildIndex(rows, children) && Justified(rows, root) && root.id in Ids(rows) && visited0 <= Ids(rows)
    requires Sound(rows) && TypedKept(rows) && Closed(rows, visited0) && Covered(rows, visited0, [], roots)
    modifies (set r | r in rows)`agentType
    ensures visited <= Ids(rows)
    ensures Sound(rows) && TypedKept(rows) && Closed(rows, visited) && Covered(rows, visited, [], roots - {root.id})
  {
    visited := visited0;
    if root.id !in visited {
      assert Covered(rows, visited, [], (roots - {root.id}) + {root.id});
      visited := WalkFrom(rows, children, root, visited, roots - {root.id});
    }
  }

  /** Set the agent type of descendants by walking down from typed spans. Roots are taken in any order. */
  method PropagateAgentTypes(rows: seq<SpanRow>)
    requires forall r <- rows :: r.agentType == r.span.own
    modifies (set r | r in rows)`agentType
    ensures forall r <- rows :: MemOutcome(Batch(rows), r.span, r.agentType)
  {
    var agentTypes := TypedRoots(rows);
    var children := ChildrenOf(rows);
    var visited: set<string> := {};
    var todo := agentTypes.Keys;
    while todo != {}
      invariant todo <= agentTypes.Keys && visited <= Ids(rows)
      invariant Sound(rows) && TypedKept(rows) && Closed(rows, visited) && Covered(rows, visited, [], todo)
    {
      var root :| root in todo;
      visited := WalkRoot(rows, children, Pending(root, agentTypes[root]), visited, todo);
      todo := todo - {root};
    }
    WalkOutcomes(rows, visited);
  }

  lemma WalkOutcomes(rows: seq<SpanRow>, visited: set<string>)
    requires Sound(rows) && TypedKept(rows) && Closed(rows, visited) && Covered(rows, visited, [], {})
    ensures forall r <- rows :: MemOutcome(Batch(rows), r.span, r.agentType)
  {
    forall r <- rows ensures MemOutcome(Batch(rows), r.span, r.agentType) {
      WalkOutcome(rows, visited, r);
    }
  }

  lemma WalkOutcome(rows: seq<SpanRow>, visited: set<string>, r: SpanRow)
    requires Sound(rows) && TypedKept(rows) && Closed(rows, visited) && Covered(rows, visited, [], {})
    requires r in rows
    ensures MemOutcome(Batch(rows), r.span, r.agentType)
  {
    var b := Batch(rows);
    assert r.span in b;
    if r.Truthy() {
      if r.agentType == r.span.own {
        assert MemReach(b, r.span, 0, r.agentType.value);
      }
    } else {
      forall t, n | MemReach(b, r.span, n, t) ensures false {
        ClosedIsComplete(rows, visited, r.span, n, t);
      }
    }
  }

  // ---------------------------------------------------------------- issues

  /** All issues carried by the spans of one trace in a batch. */
  ghost function MergedIssues(b: set<Span>, trace: string): set<string> {
    set s, i | s in b && s.trace == trace && i in s.issues :: i
  }

  /** Distribute issues across all rows of the same trace. */
  method PropagateJiraIssues(rows: seq<SpanRow>)
    requires forall r <- rows :: r.issues == r.span.issues
    modifies (set r | r in rows)`issues
    ensures forall r <- rows :: r.issues == MergedIssues(Batch(rows), r.span.trace)
  {
    var byTrace: map<string, set<string>> := map[];
    for i := 0 to |rows|
      invariant forall j :: 0 <= j < i ==> rows[j].span.trace in byTrace
      invariant forall tr :: tr in byTrace ==>
        forall x :: x in byTrace[tr] <==> exists j :: 0 <= j < i && rows[j].span.trace == tr && x in rows[j].span.issues
    {
      var tr := rows[i].span.trace;
      byTrace := byTrace[tr := (if tr in byTrace then byTrace[tr] else {}) + rows[i].issues];
    }
    forall r <- rows ensures byTrace[r.span.trace] == MergedIssues(Batch(rows), r.span.trace) {
      forall x | x in MergedIssues(Batch(rows), r.span.trace) ensures x in byTrace[r.span.trace] {
        var s :| s in Batch(rows) && s.trace == r.span.trace && x in s.issues;
      }
    }
    for i := 0 to |rows|
      invariant forall j :: 0 <= j < i ==> rows[j].issues == MergedIssues(Batch(rows), rows[j].span.trace)
      invariant forall j :: 0 <= j < |rows| ==>
        rows[j].issues == rows[j].span.issues || rows[j].issues == MergedIssues(Batch(rows), rows[j].span.trace)
    {
      var merged := byTrace[rows[i].span.trace];
      if merged != {} {
        rows[i].issues := merged;
      }
    }
  }
}

/** How one requeue invocation gets on, whatever the others do: which of its calls is its last, and that five
    calls that come through run the script on the values it staged. */
module RequeueProgress {
  import opened Common
  import opened Requeue
  import opened RequeueRuns

  /** The calls of one invocation among the events, in order. */
  function CallsOf(events: seq<Event>, i: nat): seq<Event> {
    if events == [] then []
    else
      var n := |events| - 1;
      CallsOf(events[..n], i) + if events[n].Call? && events[n].i == i then [events[n]] else []
  }

  lemma CallsSoFar(events: seq<Event>, n: nat, i: nat)
    requires 0 < n <= |events|
    ensures CallsOf(events[..n], i)
         == CallsOf(events[..n-1], i) + if events[n-1].Call? && events[n-1].i == i then [events[n-1]] else []
  {
    assert events[..n][..n-1] == events[..n-1];
  }

  predicate AllOk(calls: seq<Event>) { forall e <- calls :: e.Call? && e.ok }

  // ---------------------------------------------------------------- when an invocation ends

  /** The first five calls. */
  function Planned(k: nat): Pc {
    match k
    case 0 => SetEntry
    case 1 => ExpireEntry
    case 2 => SetTask
    case 3 => ExpireTask
    case _ => Eval
  }

  /** It goes through its five calls while they succeed, and from the first that does not to the cleanup. */
  predicate IsAt(calls: seq<Event>, pc: Pc) {
    if AllOk(calls) then
      |calls| <= 5 && (if |calls| == 5 then pc.Exited? else pc == Planned(|calls|))
    else if AllOk(calls[..|calls|-1]) then |calls| <= 5 && pc == Cleanup
    else |calls| <= 6 && pc == Exited(None)
  }

  lemma CallGoesOn(s: System, e: Event, calls: seq<Event>)
    requires Enabled(s, e) && e.Call? && IsAt(calls, s.clients[e.i].pc)
    ensures IsAt(calls + [e], Next(s, e).clients[e.i].pc)
  {
    assert (calls + [e])[..|calls|] == calls;
    if AllOk(calls) && e.ok {
      assert AllOk(calls + [e]);
    } else {
      assert e in calls + [e];
      if !AllOk(calls) {
        var bad :| bad in calls && !(bad.Call? && bad.ok);
        assert bad in calls + [e];
      }
    }
  }

  lemma StepGoesOn(s: System, e: Event, calls: seq<Event>, i: nat)
    requires Enabled(s, e) && i < |s.clients| && IsAt(calls, s.clients[i].pc)
    ensures |Next(s, e).clients| == |s.clients|
    ensures IsAt(calls + if e.Call? && e.i == i then [e] else [], Next(s, e).clients[i].pc)
  {
    if e.Call? && e.i == i {
      CallGoesOn(s, e, calls);
    } else {
      assert calls + [] == calls;
    }
  }

  lemma {:induction false} WhereItIs(events: seq<Event>, states: seq<System>, n: nat, i: nat)
    requires IsHistory(events, states) && n <= |events| && i < |states[0].clients|
    ensures |states[n].clients| == |states[0].clients| && IsAt(CallsOf(events[..n], i), states[n].clients[i].pc)
  {
    if n == 0 {
      assert states[0].clients[i] in states[0].clients;
    } else {
      WhereItIs(events, states, n - 1, i);
      CallsSoFar(events, n, i);
      StepGoesOn(states[n-1], events[n-1], CallsOf(events[..n-1], i), i);
    }
  }

  /** An invocation exits with its fifth call if all five are reported to have succeeded, and otherwise, without a
      result, with the one call that follows the first failure: the cleanup. Never earlier, never later. */
  lemma WhenItExits(events: seq<Event>, states: seq<System>, n: nat, i: nat)
    requires IsHistory(events, states) && n <= |events| && i < |states[0].clients|
    ensures i < |states[n].clients|
    ensures var (calls, pc) := (CallsOf(events[..n], i), states[n].clients[i].pc);
      && |calls| <= 6
      && (pc.Exited? <==> if AllOk(calls) then |calls| == 5 else !AllOk(calls[..|calls|-1]))
      && (pc.Exited? && !AllOk(calls) ==> pc.result.None?)
      && (!AllOk(calls) && !pc.Exited? ==> pc.Cleanup?)
  {
    WhereItIs(events, states, n, i);
  }

  // ---------------------------------------------------------------- what it has staged

  /** Its two keys do not expire. */
  predicate NoExpiry(events: seq<Event>, c: Client) {
    forall e <- events :: e.Expire? ==> e.key != c.entryKey && e.key != c.taskKey
  }

  predicate ComesThrough(calls: seq<Event>) { forall e <- calls :: e.Call? && e.reached && e.ok }

  /** The entry is there from the first call on, the task from the third; its values and lists are the first ones. */
  predicate Staged(db: Db, c: Client, first: Client, k: nat) {
    && SameAddress(first, c) && c.raw == first.raw && c.task == first.task
    && (k < 5 ==> c.reply.None?)
    && (1 <= k < 5 ==> Read(db, c.entryKey) == Some(c.raw))
    && (3 <= k < 5 ==> Read(db, c.taskKey) == Some(c.task))
  }

  /** Whatever others do. */
  lemma OthersKeepStaged(s: System, e: Event, i: nat, first: Client, k: nat)
    requires Inv(s) && Enabled(s, e) && i < |s.clients| && Staged(s.db, s.clients[i], first, k)
    requires !(e.Call? && e.i == i) && NoExpiry([e], s.clients[i])
    ensures Next(s, e).clients[i] == s.clients[i] && Staged(Next(s, e).db, s.clients[i], first, k)
  {
    var c := s.clients[i];
    assert c in s.clients;
    match e
    case Call(j, reached, ok) =>
      assert s.clients[j] in s.clients;
      if reached {
        EffectKeepsKey(s.db, s.clients[j], c.entryKey);
        EffectKeepsKey(s.db, s.clients[j], c.taskKey);
      }
    case Expire(key) => assert e in [e];
    case Append(item) =>
      assert !Staging(s.clients, item.list);
      ListsKeepKey(s.db, item.list, [item.x] + Items(s.db, item.list), c.entryKey);
      ListsKeepKey(s.db, item.list, [item.x] + Items(s.db, item.list), c.taskKey);
    case Take(item) =>
      assert !Staging(s.clients, item.list);
      ListsKeepKey(s.db, item.list, RemoveFirst(Items(s.db, item.list), item.x), c.entryKey);
      ListsKeepKey(s.db, item.list, RemoveFirst(Items(s.db, item.list), item.x), c.taskKey);
  }

  lemma OwnCallStages(s: System, e: Event, calls: seq<Event>, first: Client)
    requires Inv(s) && Enabled(s, e) && e.Call? && e.reached && e.ok && AllOk(calls) && IsAt(calls, s.clients[e.i].pc)
    requires Staged(s.db, s.clients[e.i], first, |calls|)
    ensures Staged(Next(s, e).db, Next(s, e).clients[e.i], first, |calls| + 1)
  {
    assert s.clients[e.i] in s.clients;
  }

  lemma {:induction false} StagedSoFar(events: seq<Event>, states: seq<System>, n: nat, i: nat)
    requires IsHistory(events, states) && n <= |events| && i < |states[0].clients|
    requires ComesThrough(CallsOf(events[..n], i)) && NoExpiry(events[..n], states[0].clients[i])
    ensures |states[n].clients| == |states[0].clients|
    ensures Staged(states[n].db, states[n].clients[i], states[0].clients[i], |CallsOf(events[..n], i)|)
  {
    if n == 0 {
      assert states[0].clients[i] in states[0].clients;
    } else {
      var (s, e, before) := (states[n-1], events[n-1], CallsOf(events[..n-1], i));
      CallsSoFar(events, n, i);
      assert forall x <- before :: x in CallsOf(events[..n], i);
      assert forall x <- events[..n-1] :: x in events[..n];
      StagedSoFar(events, states, n - 1, i);
      HistoryInv(events, states, n - 1);
      WhereItIs(events, states, n - 1, i);
      assert Enabled(s, e) && states[n] == Next(s, e);
      if e.Call? && e.i == i {
        assert e in CallsOf(events[..n], i);
        OwnCallStages(s, e, before, states[0].clients[i]);
      } else {
        assert e in events[..n];
        OthersKeepStaged(s, e, i, states[0].clients[i], |before|);
      }
    }
  }

  // ---------------------------------------------------------------- the fifth call

  /** Five calls that come through, with no expiry before the last, end the invocation, and its result says what
      the fifth found and did: 1 and one copy of the entry became one of the task, 0 if the entry was gone, -1 if
      the target is no list, and nothing, with an error printed, if the source is none. */
  lemma FifthCallDecides(events: seq<Event>, states: seq<System>, n: nat, i: nat, item: Item)
    requires IsHistory(events, states) && n < |events| && i < |states[0].clients| && events[n] == Call(i, true, true)
    requires |CallsOf(events[..n], i)| == 4 && ComesThrough(CallsOf(events[..n], i)) && NoExpiry(events[..n], states[0].clients[i])
    requires !Staging(states[0].clients, item.list)
    ensures i < |states[n+1].clients|
    ensures var (c, before, after) := (states[0].clients[i], states[n].db, states[n+1].db);
      var result := if !ListLike(before, c.source) then None
        else Some(if c.raw !in Items(before, c.source) then 0 else if ListLike(before, c.target) then 1 else -1);
      && states[n+1].clients[i].pc == Exited(result)
      && (result.Some? ==> c.entryKey !in after.keys && c.taskKey !in after.keys)
      && Copies(after, item.list, item.x) + One(result == Some(1) && Item(c.source, c.raw) == item)
         == Copies(before, item.list, item.x) + One(result == Some(1) && Item(c.target, c.task) == item)
  {
    var (s, c) := (states[n], states[n].clients[i]);
    StagedSoFar(events, states, n, i);
    HistoryInv(events, states, n);
    WhereItIs(events, states, n, i);
    StagingKept(events, states, n, item.list);
    assert c in s.clients;
    assert Enabled(s, events[n]) && states[n+1] == Next(s, events[n]);
    ScriptIsAtomic(s.db, c.source, c.target, c.entryKey, c.taskKey, item.list, item.x);
  }

  // ---------------------------------------------------------------- the first failure

  /** After the first call that is reported failed comes the cleanup, and the invocation exits without a result;
      a cleanup that arrives removes both keys. Unless the script itself was the call that failed, it never ran. */
  lemma FailureCleansUp(events: seq<Event>, states: seq<System>, m: nat, i: nat)
    requires IsHistory(events, states) && m < |events| && i < |states[0].clients| && events[m].Call? && events[m].i == i
    requires var calls := CallsOf(events[..m], i); calls != [] && AllOk(calls[..|calls|-1]) && !AllOk(calls)
    ensures i < |states[m+1].clients| && states[m+1].clients[i].pc == Exited(None)
    ensures events[m].reached ==>
      states[0].clients[i].entryKey !in states[m+1].db.keys && states[0].clients[i].taskKey !in states[m+1].db.keys
    ensures |CallsOf(events[..m], i)| < 5 ==> states[m+1].clients[i].reply.None?
  {
    var calls := CallsOf(events[..m], i);
    WhereItIs(events, states, m, i);
    StagingKept(events, states, m, "");
    assert Enabled(states[m], events[m]) && states[m+1] == Next(states[m], events[m]);
    if |calls| < 5 {
      NoScriptYet(events, states, m, i);
    }
  }

  lemma NoScriptByOthers(s: System, e: Event, calls: seq<Event>, i: nat)
    requires Enabled(s, e) && i < |s.clients| && s.clients[i].reply.None? && IsAt(calls, s.clients[i].pc)
    requires e.Call? && e.i == i ==> |calls| < 4
    ensures Next(s, e).clients[i].reply.None?
  {
  }

  /** Only the fifth call runs the script. */
  lemma {:induction false} NoScriptYet(events: seq<Event>, states: seq<System>, n: nat, i: nat)
    requires IsHistory(events, states) && n <= |events| && i < |states[0].clients| && |CallsOf(events[..n], i)| < 5
    ensures i < |states[n].clients| && states[n].clients[i].reply.None?
  {
    if n == 0 {
      assert states[0].clients[i] in states[0].clients;
    } else {
      CallsSoFar(events, n, i);
      NoScriptYet(events, states, n - 1, i);
      WhereItIs(events, states, n - 1, i);
      NoScriptByOthers(states[n-1], events[n-1], CallsOf(events[..n-1], i), i);
    }
  }

  // ---------------------------------------------------------------- one invocation, alone

  lemma {:induction false} OnlyCalls(events: seq<Event>, i: nat)
    requires forall e <- events :: e == Call(i, true, true)
    ensures CallsOf(events, i) == events
  {
    if events != [] {
      var n := |events| - 1;
      assert forall e <- events[..n] :: e in events;
      assert events[n] in events;
      OnlyCalls(events[..n], i);
    }
  }

  predicate SameList(db: Db, after: Db, key: string) {
    Items(after, key) == Items(db, key) && ListLike(after, key) == ListLike(db, key)
  }

  lemma StagingCall(s: System, t: System, k: nat)
    requires Separate(s.clients) && |s.clients| == |t.clients| == 1 && k < 4
    requires t.clients[0].pc == Planned(k) && SameAddress(s.clients[0], t.clients[0])
    ensures Enabled(t, Call(0, true, true))
    ensures var u := Next(t, Call(0, true, true));
      && |u.clients| == 1 && u.clients[0].pc == Planned(k + 1) && SameAddress(s.clients[0], u.clients[0])
      && forall key :: !Staging(s.clients, key) ==> SameList(t.db, u.db, key)
  {
    assert s.clients[0] in s.clients;
  }

  /** The first k calls of the only invocation; they leave the lists alone. */
  lemma {:induction false} FirstCalls(s: System, k: nat) returns (events: seq<Event>, states: seq<System>)
    requires Begin(s) && |s.clients| == 1 && k <= 4
    ensures IsHistory(events, states) && states[0] == s && |events| == k && forall e <- events :: e == Call(0, true, true)
    ensures forall key :: !Staging(s.clients, key) ==> SameList(s.db, states[k].db, key)
    ensures |states[k].clients| == 1 && states[k].clients[0].pc == Planned(k) && SameAddress(s.clients[0], states[k].clients[0])
  {
    if k == 0 {
      events, states := [], [s];
      assert s.clients[0] in s.clients;
    } else {
      events, states := FirstCalls(s, k - 1);
      StagingCall(s, states[k-1], k - 1);
      events, states := events + [Call(0, true, true)], states + [Next(states[k-1], Call(0, true, true))];
    }
  }

  /** An invocation whose calls all come through moves an entry that is there. */
  lemma MovesTheEntry(s: System) returns (events: seq<Event>, states: seq<System>)
    requires Begin(s) && |s.clients| == 1
    requires var c := s.clients[0]; c.raw in Items(s.db, c.source) && ListLike(s.db, c.target) && c.source != c.target
    ensures IsHistory(events, states) && |events| == 5 && states[0] == s && |states[5].clients| == 1
    ensures var (c, after) := (s.clients[0], states[5].db);
      && states[5].clients[0].pc == Exited(Some(1))
      && Copies(after, c.source, c.raw) == Copies(s.db, c.source, c.raw) - 1
      && Copies(after, c.target, c.task) == Copies(s.db, c.target, c.task) + 1
  {
    var c := s.clients[0];
    events, states := FirstCalls(s, 4);
    OnlyCalls(events, 0);
    var more := events + [Call(0, true, true)];
    assert more[..4] == events == events[..4];
    states := states + [Next(states[4], more[4])];
    events := more;
    assert !Staging(s.clients, c.source) && !Staging(s.clients, c.target);
    assert SameList(s.db, states[4].db, c.source) && SameList(s.db, states[4].db, c.target);
    FifthCallDecides(events, states, 4, 0, Item(c.source, c.raw));
    FifthCallDecides(events, states, 4, 0, Item(c.target, c.task));
  }
}

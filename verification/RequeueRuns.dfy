/** Any number of requeue invocations interleaved with each other, with expiries, with failing calls and with
    other users of the lists. */
module RequeueRuns {
  import opened Common
  import opened Requeue

  /** The calls of one invocation, in order; a call that exits with an error leads to the cleanup. */
  datatype Pc = SetEntry | ExpireEntry | SetTask | ExpireTask | Eval | Cleanup | Exited(result: Option<int>)

  /** One invocation. log holds the calls that reached the server, reply what the script did there. */
  datatype Client = Client(source: string, target: string, raw: Bytes, task: Bytes, entryKey: string, taskKey: string,
                           pc: Pc, log: set<Pc>, reply: Option<Reply>)

  datatype Item = Item(list: string, x: Bytes)

  /** added and taken count what everyone else pushed to and removed from the lists. */
  datatype System = System(db: Db, clients: seq<Client>, added: multiset<Item>, taken: multiset<Item>)

  /** A call may fail before or after it took effect. An error that the server replies may also be printed with
      exit code 0, which reads as success. */
  datatype Event =
    | Call(i: nat, reached: bool, ok: bool)
    | Expire(key: string)
    | Append(item: Item)
    | Take(item: Item)

  predicate Staging(cs: seq<Client>, key: string) { exists c <- cs :: key == c.entryKey || key == c.taskKey }

  predicate Enabled(s: System, e: Event) {
    match e
    case Call(i, _, _) => i < |s.clients| && !s.clients[i].pc.Exited?
    case Expire(key) => key in s.db.volatile && Staging(s.clients, key)
    case Append(item) => !Staging(s.clients, item.list) && ListLike(s.db, item.list)
    case Take(item) => !Staging(s.clients, item.list) && item.x in Items(s.db, item.list)
  }

  function Set(db: Db, key: string, x: Bytes): Db { Db(db.keys[key := Str(x)], db.volatile - {key}) }

  function SetTtl(db: Db, key: string): Db { if key in db.keys then db.(volatile := db.volatile + {key}) else db }

  /** What a call does on the server. */
  function Effect(db: Db, c: Client): (Option<Reply>, Db) {
    match c.pc
    case SetEntry => (c.reply, Set(db, c.entryKey, c.raw))
    case ExpireEntry => (c.reply, SetTtl(db, c.entryKey))
    case SetTask => (c.reply, Set(db, c.taskKey, c.task))
    case ExpireTask => (c.reply, SetTtl(db, c.taskKey))
    case Eval => var (reply, after) := Moved(db, c.source, c.target, c.entryKey, c.taskKey); (Some(reply), after)
    case Cleanup => (c.reply, Delete(db, {c.entryKey, c.taskKey}))
    case Exited(_) => (c.reply, db)
  }

  /** Where the invocation goes next. A printed error is no number, and raises past the cleanup. */
  function After(c: Client, reached: bool, ok: bool, reply: Option<Reply>): Pc {
    match c.pc
    case SetEntry => if ok then ExpireEntry else Cleanup
    case ExpireEntry => if ok then SetTask else Cleanup
    case SetTask => if ok then ExpireTask else Cleanup
    case ExpireTask => if ok then Eval else Cleanup
    case Eval =>
      if !ok then Cleanup
      else if reached && reply.Some? && reply.value.Returned? then Exited(Some(reply.value.result)) else Exited(None)
    case Cleanup => Exited(None)
    case Exited(_) => c.pc
  }

  function Called(c: Client, reached: bool, ok: bool, reply: Option<Reply>): Client {
    c.(pc := After(c, reached, ok, reply), log := if reached then c.log + {c.pc} else c.log, reply := reply)
  }

  function Next(s: System, e: Event): System
    requires Enabled(s, e)
  {
    match e
    case Call(i, reached, ok) =>
      var c := s.clients[i];
      var (reply, db) := if reached then Effect(s.db, c) else (c.reply, s.db);
      s.(db := db, clients := s.clients[i := Called(c, reached, ok, reply)])
    case Expire(key) => s.(db := Delete(s.db, {key}))
    case Append(item) => s.(db := Push(s.db, item.list, item.x), added := s.added + multiset{item})
    case Take(item) => s.(db := Taken(s.db, item.list, item.x), taken := s.taken + multiset{item})
  }

  /** The random token keeps staging keys apart from each other and from every list. */
  ghost predicate Separate(cs: seq<Client>) {
    && (forall c <- cs :: c.entryKey != c.taskKey)
    && (forall c, d :: c in cs && d in cs ==> {d.source, d.target} !! {c.entryKey, c.taskKey})
    && (forall i, j :: 0 <= i < j < |cs| ==> {cs[i].entryKey, cs[i].taskKey} !! {cs[j].entryKey, cs[j].taskKey})
  }

  /** Invocations not begun; their staging keys do not exist. */
  ghost predicate Begin(s: System) {
    && Separate(s.clients)
    && forall c <- s.clients :: c.pc.SetEntry? && c.log == {} && c.reply.None? && FreeKey(s.db, c.entryKey) && FreeKey(s.db, c.taskKey)
  }

  predicate FreeKey(db: Db, key: string) { key !in db.keys && key !in db.volatile }

  ghost predicate IsHistory(events: seq<Event>, states: seq<System>) {
    && |states| == |events| + 1 && Begin(states[0])
    && forall i :: 0 <= i < |events| ==> Enabled(states[i], events[i]) && states[i+1] == Next(states[i], events[i])
  }

  // ---------------------------------------------------------------- what stays true of every client

  /** A staging key holds its own value, and stays without a time to live exactly when it was set, got none
      and was not deleted. */
  predicate KeyInv(db: Db, key: string, x: Bytes, isSet: bool, timed: bool, deleted: bool) {
    && (key in db.keys ==> db.keys[key] == Str(x) && isSet)
    && (key in db.volatile ==> key in db.keys)
    && (key in db.keys && key !in db.volatile <==> isSet && !timed && !deleted)
  }

  /** By the cleanup, or by the script. */
  predicate Deleted(c: Client) { Cleanup in c.log || (c.reply.Some? && c.reply.value.Returned?) }

  predicate ClientInv(db: Db, c: Client) {
    && KeyInv(db, c.entryKey, c.raw, SetEntry in c.log, ExpireEntry in c.log, Deleted(c))
    && KeyInv(db, c.taskKey, c.task, SetTask in c.log, ExpireTask in c.log, Deleted(c))
    && (c.pc.SetEntry? ==> c.log == {})
    && (c.pc.ExpireEntry? ==> c.log <= {SetEntry})
    && (c.pc.SetTask? ==> c.log <= {SetEntry, ExpireEntry})
    && (c.pc.ExpireTask? ==> c.log <= {SetEntry, ExpireEntry, SetTask})
    && (c.pc.Eval? ==> c.log <= {SetEntry, ExpireEntry, SetTask, ExpireTask})
    && (c.reply.Some? <==> Eval in c.log)
    && (c.reply.Some? ==> c.pc.Cleanup? || c.pc.Exited?)
    && (c.pc.Cleanup? ==> Cleanup !in c.log)
    && (c.pc.Exited? && c.pc.result.Some? ==> c.reply == Some(Returned(c.pc.result.value)))
  }

  ghost predicate Inv(s: System) { Separate(s.clients) && forall c <- s.clients :: ClientInv(s.db, c) }

  /** Nobody else touches the staging keys. */
  predicate SameKey(db: Db, after: Db, key: string) {
    && (key in db.keys <==> key in after.keys) && (key in db.keys ==> db.keys[key] == after.keys[key])
    && (key in db.volatile <==> key in after.volatile)
  }

  lemma ListsKeepKey(db: Db, list: string, items: seq<Bytes>, key: string)
    requires key != list
    ensures SameKey(db, WithList(db, list, items), key)
  {
  }

  lemma MovedKeepsKey(db: Db, c: Client, key: string)
    requires key !in {c.source, c.target, c.entryKey, c.taskKey}
    ensures SameKey(db, Moved(db, c.source, c.target, c.entryKey, c.taskKey).1, key)
  {
    if Typed(db, c.source, c.entryKey, c.taskKey) && Found(db, c.source, c.entryKey, c.taskKey) {
      var (raw, task) := (Read(db, c.entryKey).value, Read(db, c.taskKey).value);
      var removed := Taken(db, c.source, raw);
      ListsKeepKey(db, c.source, RemoveFirst(Items(db, c.source), raw), key);
      ListsKeepKey(removed, c.target, [task] + Items(removed, c.target), key);
      ListsKeepKey(removed, c.source, [raw] + Items(removed, c.source), key);
    }
  }

  lemma EffectKeepsKey(db: Db, c: Client, key: string)
    requires key !in {c.source, c.target, c.entryKey, c.taskKey}
    ensures SameKey(db, Effect(db, c).1, key)
  {
    if c.pc.Eval? {
      MovedKeepsKey(db, c, key);
    }
  }

  lemma OwnCall(db: Db, c: Client, reached: bool, ok: bool)
    requires ClientInv(db, c) && c.entryKey != c.taskKey && {c.source, c.target} !! {c.entryKey, c.taskKey}
    requires !c.pc.Exited?
    ensures var (reply, after) := if reached then Effect(db, c) else (c.reply, db);
      ClientInv(after, Called(c, reached, ok, reply))
  {
  }

  lemma OthersKeepClient(db: Db, after: Db, c: Client)
    requires ClientInv(db, c) && SameKey(db, after, c.entryKey) && SameKey(db, after, c.taskKey)
    ensures ClientInv(after, c)
  {
  }

  lemma CallKeeps(s: System, e: Event)
    requires Inv(s) && Enabled(s, e) && e.Call?
    ensures Inv(Next(s, e))
  {
    var t := Next(s, e);
    var c := s.clients[e.i];
    OwnCall(s.db, c, e.reached, e.ok);
    forall j | 0 <= j < |t.clients| ensures ClientInv(t.db, t.clients[j]) {
      var d := t.clients[j];
      if j != e.i && e.reached {
        assert d == s.clients[j] && d in s.clients;
        EffectKeepsKey(s.db, c, d.entryKey);
        EffectKeepsKey(s.db, c, d.taskKey);
        OthersKeepClient(s.db, t.db, d);
      }
    }
    SameKeys(s.clients, e.i, t.clients[e.i]);
  }

  predicate SameAddress(c: Client, d: Client) {
    c.source == d.source && c.target == d.target && c.entryKey == d.entryKey && c.taskKey == d.taskKey
  }

  lemma SameKeys(cs: seq<Client>, i: nat, c: Client)
    requires Separate(cs) && i < |cs|
    requires SameAddress(cs[i], c)
    ensures Separate(cs[i := c])
  {
    var ds := cs[i := c];
    forall d <- ds ensures exists k :: 0 <= k < |cs| && SameAddress(cs[k], d) {
      var k :| 0 <= k < |ds| && ds[k] == d;
    }
  }

  lemma OutsideKeeps(s: System, e: Event)
    requires Inv(s) && Enabled(s, e) && !e.Call?
    ensures Inv(Next(s, e))
  {
    var t := Next(s, e);
    forall c <- t.clients ensures ClientInv(t.db, c) {
      match e
      case Expire(key) =>
      case Append(item) =>
        assert !Staging(s.clients, item.list);
        ListsKeepKey(s.db, item.list, [item.x] + Items(s.db, item.list), c.entryKey);
        ListsKeepKey(s.db, item.list, [item.x] + Items(s.db, item.list), c.taskKey);
        OthersKeepClient(s.db, t.db, c);
      case Take(item) =>
        assert !Staging(s.clients, item.list);
        ListsKeepKey(s.db, item.list, RemoveFirst(Items(s.db, item.list), item.x), c.entryKey);
        ListsKeepKey(s.db, item.list, RemoveFirst(Items(s.db, item.list), item.x), c.taskKey);
        OthersKeepClient(s.db, t.db, c);
    }
  }

  lemma {:induction false} HistoryInv(events: seq<Event>, states: seq<System>, n: nat)
    requires IsHistory(events, states) && n <= |events|
    ensures Inv(states[n])
  {
    if n > 0 {
      HistoryInv(events, states, n - 1);
      if events[n-1].Call? {
        CallKeeps(states[n-1], events[n-1]);
      } else {
        OutsideKeeps(states[n-1], events[n-1]);
      }
    }
  }

  // ---------------------------------------------------------------- conservation

  predicate Succeeded(c: Client) { c.reply == Some(Returned(1)) }

  /** Invocations whose script moved x off the list, and those whose script put x on it. */
  function Gone(cs: seq<Client>, item: Item): nat {
    if cs == [] then 0
    else One(Succeeded(cs[0]) && Item(cs[0].source, cs[0].raw) == item) + Gone(cs[1..], item)
  }

  function Came(cs: seq<Client>, item: Item): nat {
    if cs == [] then 0
    else One(Succeeded(cs[0]) && Item(cs[0].target, cs[0].task) == item) + Came(cs[1..], item)
  }

  lemma {:induction false} ClientUpdate(cs: seq<Client>, i: nat, c: Client, item: Item)
    requires i < |cs|
    ensures Gone(cs[i := c], item) + One(Succeeded(cs[i]) && Item(cs[i].source, cs[i].raw) == item)
            == Gone(cs, item) + One(Succeeded(c) && Item(c.source, c.raw) == item)
    ensures Came(cs[i := c], item) + One(Succeeded(cs[i]) && Item(cs[i].target, cs[i].task) == item)
            == Came(cs, item) + One(Succeeded(c) && Item(c.target, c.task) == item)
  {
    if i > 0 {
      ClientUpdate(cs[1..], i - 1, c, item);
      assert cs[i := c][1..] == cs[1..][i-1 := c];
    }
  }

  /** Copies on the list, plus what left it, minus what came to it. */
  function Balance(s: System, item: Item): int {
    Copies(s.db, item.list, item.x) + Gone(s.clients, item) + s.taken[item] - Came(s.clients, item) - s.added[item]
  }

  /** One call's share of the balance, given what it did to the list and to its client. */
  lemma EffectBalances(db: Db, c: Client, item: Item)
    requires ClientInv(db, c) && {c.source, c.target} !! {c.entryKey, c.taskKey} && item.list !in {c.entryKey, c.taskKey}
    requires !c.pc.Exited?
    ensures var (reply, after) := Effect(db, c);
      var won := c.pc.Eval? && reply == Some(Returned(1));
      && (!won ==> Succeeded(c.(reply := reply)) == Succeeded(c)) && (won ==> !Succeeded(c))
      && Copies(after, item.list, item.x) + One(won && Item(c.source, c.raw) == item)
         == Copies(db, item.list, item.x) + One(won && Item(c.target, c.task) == item)
  {
    if c.pc.Eval? {
      ScriptIsAtomic(db, c.source, c.target, c.entryKey, c.taskKey, item.list, item.x);
    }
  }

  lemma CallBalances(s: System, e: Event, item: Item)
    requires Inv(s) && Enabled(s, e) && e.Call? && !Staging(s.clients, item.list)
    ensures Balance(Next(s, e), item) == Balance(s, item)
  {
    var c := s.clients[e.i];
    assert c in s.clients && ClientInv(s.db, c);
    var d := Next(s, e).clients[e.i];
    ClientUpdate(s.clients, e.i, d, item);
    if e.reached {
      EffectBalances(s.db, c, item);
    }
  }

  lemma OutsideBalances(s: System, e: Event, item: Item)
    requires Inv(s) && Enabled(s, e) && !e.Call? && !Staging(s.clients, item.list)
    ensures Balance(Next(s, e), item) == Balance(s, item)
  {
    match e
    case Expire(key) => DeleteCopies(s.db, {key}, item.list, item.x);
    case Append(other) => PushCopies(s.db, other.list, other.x, item.list, item.x);
    case Take(other) => TakeCopies(s.db, other.list, other.x, item.list, item.x);
  }

  lemma StepBalances(s: System, e: Event, item: Item)
    requires Inv(s) && Enabled(s, e) && !Staging(s.clients, item.list)
    ensures Balance(Next(s, e), item) == Balance(s, item)
  {
    if e.Call? {
      CallBalances(s, e, item);
    } else {
      OutsideBalances(s, e, item);
    }
  }

  lemma {:induction false} StagingKept(events: seq<Event>, states: seq<System>, n: nat, key: string)
    requires IsHistory(events, states) && n <= |events|
    ensures |states[n].clients| == |states[0].clients|
    ensures forall i :: 0 <= i < |states[0].clients| ==>
      SameAddress(states[0].clients[i], states[n].clients[i])
      && states[n].clients[i].raw == states[0].clients[i].raw && states[n].clients[i].task == states[0].clients[i].task
    ensures Staging(states[n].clients, key) == Staging(states[0].clients, key)
  {
    if n > 0 {
      StagingKept(events, states, n - 1, key);
      assert Enabled(states[n-1], events[n-1]);
    }
    var (cs, ds) := (states[0].clients, states[n].clients);
    assert forall i :: 0 <= i < |cs| ==> cs[i].entryKey == ds[i].entryKey && cs[i].taskKey == ds[i].taskKey;
  }

  lemma {:induction false} BalanceKept(events: seq<Event>, states: seq<System>, n: nat, item: Item)
    requires IsHistory(events, states) && n <= |events| && !Staging(states[0].clients, item.list)
    ensures Balance(states[n], item) == Balance(states[0], item)
  {
    if n > 0 {
      BalanceKept(events, states, n - 1, item);
      HistoryInv(events, states, n - 1);
      StagingKept(events, states, n - 1, item.list);
      StepBalances(states[n-1], events[n-1], item);
    }
  }

  lemma {:induction false} NobodyYet(cs: seq<Client>, item: Item)
    requires forall c <- cs :: c.reply.None?
    ensures Gone(cs, item) == 0 && Came(cs, item) == 0
  {
    if cs != [] {
      NobodyYet(cs[1..], item);
    }
  }

  /** Under every interleaving: copies still on a list, plus successful requeues off it, plus what others took,
      make up what was there, plus what was requeued or pushed onto it. */
  lemma CopiesAreConserved(events: seq<Event>, states: seq<System>, n: nat, item: Item)
    requires IsHistory(events, states) && n <= |events| && !Staging(states[0].clients, item.list)
    requires states[0].added == states[0].taken == multiset{}
    ensures var s := states[n];
      Copies(s.db, item.list, item.x) + Gone(s.clients, item) + s.taken[item]
      == Copies(states[0].db, item.list, item.x) + Came(s.clients, item) + s.added[item]
  {
    BalanceKept(events, states, n, item);
    NobodyYet(states[0].clients, item);
  }

  lemma {:induction false} TwoGone(cs: seq<Client>, item: Item, i: nat, j: nat)
    requires i < j < |cs| && Succeeded(cs[i]) && Succeeded(cs[j])
    requires Item(cs[i].source, cs[i].raw) == item && Item(cs[j].source, cs[j].raw) == item
    ensures Gone(cs, item) >= 2
  {
    if i > 0 {
      TwoGone(cs[1..], item, i - 1, j - 1);
    } else {
      OneGone(cs[1..], item, j - 1);
    }
  }

  lemma {:induction false} OneGone(cs: seq<Client>, item: Item, j: nat)
    requires j < |cs| && Succeeded(cs[j]) && Item(cs[j].source, cs[j].raw) == item
    ensures Gone(cs, item) >= 1
  {
    if j > 0 {
      OneGone(cs[1..], item, j - 1);
    }
  }

  /** Of several invocations for an entry that is there once and that nobody pushes again, one succeeds at most. */
  lemma OneInvocationWins(events: seq<Event>, states: seq<System>, n: nat, item: Item, i: nat, j: nat)
    requires IsHistory(events, states) && n <= |events| && !Staging(states[0].clients, item.list)
    requires states[0].added == states[0].taken == multiset{} && Copies(states[0].db, item.list, item.x) == 1
    requires states[n].added[item] == 0 && Came(states[n].clients, item) == 0
    requires i < j < |states[n].clients|
    requires Item(states[n].clients[i].source, states[n].clients[i].raw) == item
    requires Item(states[n].clients[j].source, states[n].clients[j].raw) == item
    ensures !(Succeeded(states[n].clients[i]) && Succeeded(states[n].clients[j]))
  {
    CopiesAreConserved(events, states, n, item);
    if Succeeded(states[n].clients[i]) && Succeeded(states[n].clients[j]) {
      TwoGone(states[n].clients, item, i, j);
    }
  }

  /** What the script did stays on record, and nobody runs it twice. */
  lemma StepKeepsWins(s: System, e: Event, item: Item)
    requires Inv(s) && Enabled(s, e)
    ensures Gone(Next(s, e).clients, item) >= Gone(s.clients, item) && s.taken <= Next(s, e).taken
  {
    if e.Call? {
      var c := s.clients[e.i];
      assert c in s.clients && ClientInv(s.db, c);
      ClientUpdate(s.clients, e.i, Next(s, e).clients[e.i], item);
    }
  }

  lemma {:induction false} WinsKept(events: seq<Event>, states: seq<System>, m: nat, n: nat, item: Item)
    requires IsHistory(events, states) && m <= n <= |events|
    ensures Gone(states[n].clients, item) >= Gone(states[m].clients, item) && states[m].taken <= states[n].taken
    decreases n
  {
    if m < n {
      WinsKept(events, states, m, n - 1, item);
      HistoryInv(events, states, n - 1);
      StepKeepsWins(states[n-1], events[n-1], item);
    }
  }

  predicate Wins(c: Client, item: Item) { Succeeded(c) && Item(c.source, c.raw) == item }

  lemma {:induction false} SomeWinner(cs: seq<Client>, item: Item) returns (k: nat)
    requires Gone(cs, item) >= 1
    ensures k < |cs| && Wins(cs[k], item)
  {
    if Wins(cs[0], item) {
      k := 0;
    } else {
      k := SomeWinner(cs[1..], item);
      k := k + 1;
    }
  }

  /** A script that runs with both values staged, on lists that can be changed. */
  predicate Runs(s: System, e: Event) {
    e.Call? && Enabled(s, e) && e.reached
    && var c := s.clients[e.i];
      && c.pc.Eval? && c.entryKey in s.db.keys && c.taskKey in s.db.keys && ListLike(s.db, c.source) && ListLike(s.db, c.target)
  }

  /** It moves the entry, or somebody has it already. */
  lemma RunWinsOrIsLate(s: System, e: Event, item: Item)
    requires Inv(s) && Runs(s, e) && Item(s.clients[e.i].source, s.clients[e.i].raw) == item
    ensures Gone(Next(s, e).clients, item) >= 1 || Copies(s.db, item.list, item.x) == 0
  {
    var c := s.clients[e.i];
    assert c in s.clients && ClientInv(s.db, c);
    ScriptIsAtomic(s.db, c.source, c.target, c.entryKey, c.taskKey, c.source, c.raw);
    if item.x in Items(s.db, item.list) {
      assert Succeeded(Next(s, e).clients[e.i]);
      OneGone(Next(s, e).clients, item, e.i);
    }
  }

  /** Once one of them ran its script so, exactly one succeeded, unless somebody else took the entry. */
  lemma ExactlyOneWins(events: seq<Event>, states: seq<System>, m: nat, n: nat, item: Item) returns (k: nat)
    requires IsHistory(events, states) && m < n <= |events| && !Staging(states[0].clients, item.list)
    requires states[0].added == states[0].taken == multiset{} && Copies(states[0].db, item.list, item.x) == 1
    requires states[n].added[item] == 0 && Came(states[n].clients, item) == 0 && states[n].taken[item] == 0
    requires Runs(states[m], events[m])
    requires Item(states[m].clients[events[m].i].source, states[m].clients[events[m].i].raw) == item
    ensures k < |states[n].clients| && Wins(states[n].clients[k], item)
    ensures forall j :: 0 <= j < |states[n].clients| && j != k ==> !Wins(states[n].clients[j], item)
  {
    HistoryInv(events, states, m);
    RunWinsOrIsLate(states[m], events[m], item);
    CopiesAreConserved(events, states, m, item);
    WinsKept(events, states, m, n, item);
    WinsKept(events, states, m + 1, n, item);
    k := SomeWinner(states[n].clients, item);
    forall j | 0 <= j < |states[n].clients| && j != k ensures !Wins(states[n].clients[j], item) {
      if Wins(states[n].clients[j], item) {
        OneInvocationWins(events, states, n, item, if j < k then j else k, if j < k then k else j);
      }
    }
  }

  /** A result that reached the user is the script's; the converse fails when the call itself is reported failed. */
  lemma ReportedIsTrue(events: seq<Event>, states: seq<System>, n: nat, i: nat)
    requires IsHistory(events, states) && n <= |events| && i < |states[n].clients|
    ensures var c := states[n].clients[i];
      c.pc.Exited? && c.pc.result.Some? ==> c.reply == Some(Returned(c.pc.result.value))
  {
    HistoryInv(events, states, n);
    assert states[n].clients[i] in states[n].clients;
  }

  /** The script decides what happens: run with both values still staged, it moves the entry if and only if the
      entry is still there and the target can take it. */
  lemma ScriptDecides(events: seq<Event>, states: seq<System>, n: nat, i: nat)
    requires IsHistory(events, states) && n < |events| && i < |states[n].clients| && states[n].clients[i].pc.Eval?
    requires events[n] == Call(i, true, true)
    requires states[n].clients[i].entryKey in states[n].db.keys && states[n].clients[i].taskKey in states[n].db.keys
    requires ListLike(states[n].db, states[n].clients[i].source)
    ensures var (s, c) := (states[n], states[n].clients[i]);
      var result := if c.raw !in Items(s.db, c.source) then 0 else if ListLike(s.db, c.target) then 1 else -1;
      states[n+1].clients[i].pc == Exited(Some(result))
  {
    HistoryInv(events, states, n);
    var (s, c) := (states[n], states[n].clients[i]);
    assert c in s.clients && ClientInv(s.db, c);
    assert states[n+1] == Next(s, events[n]);
    ScriptIsAtomic(s.db, c.source, c.target, c.entryKey, c.taskKey, c.source, c.raw);
  }

  /** A staging key stays behind without a time to live exactly when its SET reached the server, its EXPIRE did
      not, and neither the script nor the cleanup deleted it. */
  lemma StagingLeaks(events: seq<Event>, states: seq<System>, n: nat, i: nat)
    requires IsHistory(events, states) && n <= |events| && i < |states[n].clients|
    ensures var (db, c) := (states[n].db, states[n].clients[i]);
      && (c.entryKey in db.keys && c.entryKey !in db.volatile
          <==> SetEntry in c.log && ExpireEntry !in c.log && !Deleted(c))
      && (c.taskKey in db.keys && c.taskKey !in db.volatile
          <==> SetTask in c.log && ExpireTask !in c.log && !Deleted(c))
  {
    HistoryInv(events, states, n);
    assert states[n].clients[i] in states[n].clients;
  }

  /** SET arrives, EXPIRE and the cleanup do not: the key stays for good. */
  lemma StagedForGood() returns (events: seq<Event>, states: seq<System>)
    ensures IsHistory(events, states) && |states[0].clients| == |states[|events|].clients| == 1
    ensures var (s, c) := (states[|events|], states[0].clients[0]);
      && s.clients[0].pc.Exited? && c.entryKey in s.db.keys && c.entryKey !in s.db.volatile
  {
    var c := Client("error_list", "queue_todo", [], [], "tmp:entry", "tmp:task", SetEntry, {}, None);
    var s0 := System(Db(map[], {}), [c], multiset{}, multiset{});
    events := [Call(0, true, true), Call(0, false, false), Call(0, false, false)];
    var s1 := Next(s0, events[0]);
    var s2 := Next(s1, events[1]);
    var s3 := Next(s2, events[2]);
    states := [s0, s1, s2, s3];
  }

  // ---------------------------------------------------------------- the task that is pushed

  /** A task as the requeue edits it; body is everything it does not touch. */
  class QueuedTask {
    var attempts: int
    var userTriggered: bool
    const body: string

    constructor (attempts: int, userTriggered: bool, body: string)
      ensures this.attempts == attempts && this.userTriggered == userTriggered && this.body == body
    {
      this.attempts, this.userTriggered, this.body := attempts, userTriggered, body;
    }

    /** Reset the task and name the priority queue of its source. */
    method Prepare(source: string, user: bool) returns (target: string)
      modifies this
      ensures attempts == 0 && userTriggered == user
      ensures EndsWith(target, "_todo") && RemoveSuffix(target, "_todo") == RemoveSuffix(source, "_todo")
    {
      attempts, userTriggered := 0, user;
      target := if EndsWith(source, "_todo") then source else source + "_todo";
      assert EndsWith(source + "_todo", "_todo");
    }
  }
}

/** The backport queue: workers pop tasks, take the issue's lock, run, release it, and only then requeue. */
module TaskQueue {
  import opened Common
  import opened BackportModel
  import opened BackportRuns

  /** A queued payload, or an error entry made from one; todo says the user triggered it, which picks the
      priority twin of its queue. */
  datatype Job = Job(issue: string, branch: string, queue: string, todo: bool, modular: bool, task: Task)

  /** Where a worker is in process_task. It keeps the payload it popped, which a shutdown pushes back. */
  datatype Stage =
    | Popped(job: Job)
    | Working(job: Job)
    | Releasing(job: Job, requeue: Option<Job>)
    | Pushing(job: Job, again: Job)

  /** Redis and the workers. Lock tokens are worker names, never used twice. */
  datatype Broker = Broker(todo: seq<Job>, normal: seq<Job>, locks: map<string, nat>, workers: map<nat, Stage>,
                           completed: seq<Job>, errors: seq<Job>, next: nat)

  /** Finish: scanned error entries were gone through after a success, fewer than the limit when a call failed
      or in a dry run. Release: ok is false when the release call failed, which is only logged. Shutdown cancels a worker: ok
      says its release got through, sent that the Redis call it was waiting for had taken effect. */
  datatype Event =
    | Pop
    | TryLock(w: nat)
    | Finish(w: nat, final: State, scanned: nat)
    | Release(w: nat, ok: bool)
    | Push(w: nat)
    | Expire(issue: string)
    | Shutdown(w: nat, ok: bool, sent: bool)

  // ---------------------------------------------------------------- steps

  predicate Enabled(s: Broker, e: Event) {
    match e
    case Pop => s.todo != [] || s.normal != []
    case TryLock(w) => w in s.workers && s.workers[w].Popped?
    case Finish(w, _, scanned) => w in s.workers && s.workers[w].Working? && scanned <= ERROR_CLEANUP_SCAN_LIMIT
    case Release(w, _) => w in s.workers && s.workers[w].Releasing?
    case Push(w) => w in s.workers && s.workers[w].Pushing?
    case Expire(issue) => issue in s.locks
    case Shutdown(w, _, _) => w in s.workers
  }

  function Leave(s: Broker, w: nat): Broker { s.(workers := s.workers - {w}) }

  function At(s: Broker, w: nat, stage: Stage): Broker { s.(workers := s.workers[w := stage]) }

  /** LPUSH: behind everything already queued. */
  function PushLeft(s: Broker, job: Job): Broker {
    if job.todo then s.(todo := [job] + s.todo) else s.(normal := [job] + s.normal)
  }

  /** RPUSH: the next to be popped. */
  function PushRight(s: Broker, job: Job): Broker {
    if job.todo then s.(todo := s.todo + [job]) else s.(normal := s.normal + [job])
  }

  /** Compare and delete. */
  function Unlock(s: Broker, issue: string, w: nat): Broker {
    if issue in s.locks && s.locks[issue] == w then s.(locks := s.locks - {issue}) else s
  }

  const ERROR_CLEANUP_SCAN_LIMIT := 1000

  /** The entry is of the same issue, target branch and queue, whichever twin. */
  predicate Resolves(job: Job, entry: Job) {
    entry.issue == job.issue && entry.branch == job.branch && entry.queue == job.queue
  }

  function Unresolved(errors: seq<Job>, job: Job): seq<Job> {
    if errors == [] then [] else (if Resolves(job, errors[0]) then [] else [errors[0]]) + Unresolved(errors[1..], job)
  }

  /** clear_resolved_errors: goes through the newest entries. */
  function ClearResolved(errors: seq<Job>, job: Job, scanned: nat): seq<Job> {
    var n := if scanned < |errors| then scanned else |errors|;
    Unresolved(errors[..n], job) + errors[n..]
  }

  /** What is left of a cancelled worker before its payload is pushed back. */
  function Cancelled(s: Broker, w: nat, ok: bool, sent: bool): Broker
    requires w in s.workers
  {
    match s.workers[w]
    case Popped(job) => if sent && job.issue !in s.locks then s.(locks := s.locks[job.issue := w]) else s
    case Working(job) => if ok then Unlock(s, job.issue, w) else s
    case Releasing(job, _) => if ok then Unlock(s, job.issue, w) else s
    case Pushing(_, again) => if sent then PushLeft(s, again) else s
  }

  function Next(s: Broker, maxRetries: int, e: Event): Broker
    requires Enabled(s, e)
  {
    match e
    case Pop =>
      var job := if s.todo != [] then s.todo[|s.todo|-1] else s.normal[|s.normal|-1];
      var popped := if s.todo != [] then s.(todo := s.todo[..|s.todo|-1]) else s.(normal := s.normal[..|s.normal|-1]);
      At(popped, s.next, Popped(job)).(next := s.next + 1)
    case TryLock(w) =>
      var job := s.workers[w].job;
      if job.issue in s.locks then Leave(s, w) else At(s, w, Working(job)).(locks := s.locks[job.issue := w])
    case Finish(w, final, scanned) =>
      var job := s.workers[w].job;
      (match Settle(job.task, maxRetries, final)
       case Completed => At(s, w, Releasing(job, None)).(completed := if job.modular then s.completed else [job] + s.completed,
                                                          errors := ClearResolved(s.errors, job, scanned))
       case Requeue(task) => At(s, w, Releasing(job, Some(job.(task := task))))
       case ErrorList => At(s, w, Releasing(job, None)).(errors := [job] + s.errors))
    case Release(w, ok) =>
      var stage := s.workers[w];
      var s1 := if ok then Unlock(s, stage.job.issue, w) else s;
      if stage.requeue.Some? then At(s1, w, Pushing(stage.job, stage.requeue.value)) else Leave(s1, w)
    case Push(w) => Leave(PushLeft(s, s.workers[w].again), w)
    case Expire(issue) => s.(locks := s.locks - {issue})
    case Shutdown(w, ok, sent) => PushRight(Leave(Cancelled(s, w, ok, sent), w), s.workers[w].job)
  }

  /** states[i] is the broker after the first i events. */
  ghost predicate IsHistory(maxRetries: int, events: seq<Event>, states: seq<Broker>) {
    && |states| == |events| + 1
    && forall i :: 0 <= i < |events| ==> Enabled(states[i], events[i]) && states[i+1] == Next(states[i], maxRetries, events[i])
  }

  // ---------------------------------------------------------------- where an issue's tasks are

  function Count(q: seq<Job>, issue: string): nat {
    if q == [] then 0 else (if q[0].issue == issue then 1 else 0) + Count(q[1..], issue)
  }

  lemma {:induction false} CountConcat(a: seq<Job>, b: seq<Job>, issue: string)
    ensures Count(a + b, issue) == Count(a, issue) + Count(b, issue)
  {
    if a == [] {
      assert a + b == b;
    } else {
      CountConcat(a[1..], b, issue);
      assert (a + b)[1..] == a[1..] + b;
    }
  }

  /** The worker works for the issue; unless finished is set, only if it has the only copy of its task. */
  predicate Has(stage: Stage, issue: string, finished: bool) {
    stage.job.issue == issue && (stage.Releasing? ==> finished || stage.requeue.Some?)
  }

  function Hands(s: Broker, issue: string, finished: bool): set<nat> {
    set w | w in s.workers && Has(s.workers[w], issue, finished)
  }

  function Queued(s: Broker, issue: string): nat { Count(s.todo, issue) + Count(s.normal, issue) }

  /** The issue's tasks that are queued or in a worker's hands. */
  function Tasks(s: Broker, issue: string, finished: bool): nat { Queued(s, issue) + |Hands(s, issue, finished)| }

  /** Its entries on the two lists. */
  function Listed(s: Broker, issue: string): nat { Count(s.completed, issue) + Count(s.errors, issue) }

  // ---------------------------------------------------------------- what an event does to them

  /** The lock attempt finds the lock taken and the payload is dropped. */
  predicate Drops(s: Broker, e: Event, issue: string) {
    e.TryLock? && e.w in s.workers && s.workers[e.w].job.issue == issue && issue in s.locks
  }

  /** A cancelled worker whose task was already pushed. */
  predicate DoublesPush(s: Broker, e: Event, issue: string) {
    e.Shutdown? && e.w in s.workers && s.workers[e.w].job.issue == issue && s.workers[e.w].Pushing? && e.sent
  }

  /** A cancelled worker whose task was already finished or pushed: pushing its payload makes a second copy. */
  predicate Doubles(s: Broker, e: Event, issue: string) {
    || DoublesPush(s, e, issue)
    || (e.Shutdown? && e.w in s.workers && s.workers[e.w].job.issue == issue && s.workers[e.w].Releasing? && s.workers[e.w].requeue.None?)
  }

  predicate Finishes(s: Broker, e: Event, issue: string) {
    e.Finish? && e.w in s.workers && s.workers[e.w].Working? && s.workers[e.w].job.issue == issue
  }

  /** The task is not requeued. */
  predicate Ends(s: Broker, maxRetries: int, e: Event, issue: string) {
    Finishes(s, e, issue) && !Settle(s.workers[e.w].job.task, maxRetries, e.final).Requeue?
  }

  /** A modular success, which no list records. */
  predicate EndsUnlisted(s: Broker, maxRetries: int, e: Event, issue: string) {
    && Finishes(s, e, issue) && s.workers[e.w].job.modular
    && Settle(s.workers[e.w].job.task, maxRetries, e.final).Completed?
  }

  /** How many error entries of the issue a success removes. */
  function Clears(s: Broker, maxRetries: int, e: Event, issue: string): nat {
    if e.Finish? && e.w in s.workers && s.workers[e.w].Working? && Settle(s.workers[e.w].job.task, maxRetries, e.final).Completed?
    then ClearCounts(s.errors, s.workers[e.w].job, e.scanned, issue);
         Count(s.errors, issue) - Count(ClearResolved(s.errors, s.workers[e.w].job, e.scanned), issue)
    else 0
  }

  lemma {:induction false} UnresolvedCounts(errors: seq<Job>, job: Job, issue: string)
    ensures Count(Unresolved(errors, job), issue) <= Count(errors, issue)
    ensures issue != job.issue ==> Count(Unresolved(errors, job), issue) == Count(errors, issue)
  {
    if errors != [] {
      UnresolvedCounts(errors[1..], job, issue);
      CountConcat(if Resolves(job, errors[0]) then [] else [errors[0]], Unresolved(errors[1..], job), issue);
    }
  }

  /** Entries of other issues stay. */
  lemma ClearCounts(errors: seq<Job>, job: Job, scanned: nat, issue: string)
    ensures Count(ClearResolved(errors, job, scanned), issue) <= Count(errors, issue)
    ensures issue != job.issue ==> Count(ClearResolved(errors, job, scanned), issue) == Count(errors, issue)
  {
    var n := if scanned < |errors| then scanned else |errors|;
    UnresolvedCounts(errors[..n], job, issue);
    CountConcat(errors[..n], errors[n..], issue);
    CountConcat(Unresolved(errors[..n], job), errors[n..], issue);
    assert errors == errors[..n] + errors[n..];
  }

  /** What happens to tasks and entries of an issue. */
  datatype Kind = Dropped | Doubled | Entered | Unlisted | Cleared

  function Amount(kind: Kind, s: Broker, maxRetries: int, e: Event, issue: string): nat {
    match kind
    case Dropped => One(Drops(s, e, issue))
    case Doubled => One(Doubles(s, e, issue))
    case Entered => One(Ends(s, maxRetries, e, issue) && !EndsUnlisted(s, maxRetries, e, issue))
    case Unlisted => One(EndsUnlisted(s, maxRetries, e, issue))
    case Cleared => Clears(s, maxRetries, e, issue)
  }

  /** A requeued task is for the same issue as its payload. */
  predicate SameJob(stage: Stage) {
    && (stage.Pushing? ==> stage.again.issue == stage.job.issue)
    && (stage.Releasing? && stage.requeue.Some? ==> stage.requeue.value.issue == stage.job.issue)
  }

  ghost predicate SameIssue(s: Broker) { forall w <- s.workers :: SameJob(s.workers[w]) && w < s.next }

  lemma HandsUpdate(s: Broker, w: nat, stage: Stage, issue: string, finished: bool)
    ensures |Hands(At(s, w, stage), issue, finished)| ==
            |Hands(s, issue, finished)| - One(w in Hands(s, issue, finished)) + One(Has(stage, issue, finished))
  {
    var rest := Hands(s, issue, finished) - {w};
    assert Hands(At(s, w, stage), issue, finished) == if Has(stage, issue, finished) then rest + {w} else rest;
  }

  lemma HandsLeave(s: Broker, w: nat, issue: string, finished: bool)
    ensures |Hands(Leave(s, w), issue, finished)| == |Hands(s, issue, finished)| - One(w in Hands(s, issue, finished))
  {
    assert Hands(Leave(s, w), issue, finished) == Hands(s, issue, finished) - {w};
  }

  lemma SameHands(s: Broker, t: Broker, issue: string, finished: bool)
    requires s.workers == t.workers
    ensures Hands(s, issue, finished) == Hands(t, issue, finished)
  {
  }

  lemma PushCounts(s: Broker, job: Job, issue: string)
    ensures Queued(PushLeft(s, job), issue) == Queued(s, issue) + One(job.issue == issue)
    ensures Queued(PushRight(s, job), issue) == Queued(s, issue) + One(job.issue == issue)
  {
    CountConcat([job], if job.todo then s.todo else s.normal, issue);
    CountConcat(if job.todo then s.todo else s.normal, [job], issue);
  }

  /** What one event does to the number of tasks. Finished workers count until they leave if finished is set. */
  function Delta(s: Broker, maxRetries: int, e: Event, issue: string, finished: bool): int {
    match e
    case TryLock(_) => 0 - One(Drops(s, e, issue))
    case Finish(_, _, _) => if finished then 0 else 0 - One(Ends(s, maxRetries, e, issue))
    case Release(w, _) =>
      0 - One(finished && w in s.workers && s.workers[w].Releasing? && s.workers[w].job.issue == issue && s.workers[w].requeue.None?)
    case Shutdown(_, _, _) => One(if finished then DoublesPush(s, e, issue) else Doubles(s, e, issue))
    case _ => 0
  }

  lemma CancelledCounts(s: Broker, w: nat, ok: bool, sent: bool, issue: string)
    requires w in s.workers && SameIssue(s)
    ensures var t := Cancelled(s, w, ok, sent);
      && t.workers == s.workers
      && Queued(t, issue) == Queued(s, issue) + One(s.workers[w].Pushing? && sent && s.workers[w].job.issue == issue)
  {
    if s.workers[w].Pushing? {
      PushCounts(s, s.workers[w].again, issue);
    }
  }

  lemma ShutdownTasks(s: Broker, maxRetries: int, e: Event, issue: string, finished: bool)
    requires Enabled(s, e) && SameIssue(s) && e.Shutdown?
    ensures Tasks(Next(s, maxRetries, e), issue, finished) == Tasks(s, issue, finished) + Delta(s, maxRetries, e, issue, finished)
  {
    var s1 := Cancelled(s, e.w, e.ok, e.sent);
    CancelledCounts(s, e.w, e.ok, e.sent, issue);
    SameHands(s, s1, issue, finished);
    HandsLeave(s1, e.w, issue, finished);
    var s2 := Leave(s1, e.w);
    var s3 := PushRight(s2, s.workers[e.w].job);
    PushCounts(s2, s.workers[e.w].job, issue);
    SameHands(s3, s2, issue, finished);
    assert Next(s, maxRetries, e) == s3;
  }

  lemma PopTasks(s: Broker, maxRetries: int, issue: string, finished: bool)
    requires Enabled(s, Pop) && SameIssue(s)
    ensures Tasks(Next(s, maxRetries, Pop), issue, finished) == Tasks(s, issue, finished)
  {
    var q := if s.todo != [] then s.todo else s.normal;
    CountConcat(q[..|q|-1], [q[|q|-1]], issue);
    assert q == q[..|q|-1] + [q[|q|-1]];
    assert s.next !in s.workers;
    HandsUpdate(s, s.next, Popped(q[|q|-1]), issue, finished);
    SameHands(Next(s, maxRetries, Pop), At(s, s.next, Popped(q[|q|-1])), issue, finished);
  }

  lemma LockTasks(s: Broker, maxRetries: int, w: nat, issue: string, finished: bool)
    requires Enabled(s, TryLock(w))
    ensures Tasks(Next(s, maxRetries, TryLock(w)), issue, finished) == Tasks(s, issue, finished) - One(Drops(s, TryLock(w), issue))
  {
    var job := s.workers[w].job;
    if job.issue in s.locks {
      HandsLeave(s, w, issue, finished);
    } else {
      HandsUpdate(s, w, Working(job), issue, finished);
      SameHands(Next(s, maxRetries, TryLock(w)), At(s, w, Working(job)), issue, finished);
    }
  }

  lemma FinishTasks(s: Broker, maxRetries: int, e: Event, issue: string, finished: bool)
    requires Enabled(s, e) && SameIssue(s) && e.Finish?
    ensures Tasks(Next(s, maxRetries, e), issue, finished) == Tasks(s, issue, finished) + Delta(s, maxRetries, e, issue, finished)
  {
    var t := Next(s, maxRetries, e);
    HandsUpdate(s, e.w, t.workers[e.w], issue, finished);
    SameHands(t, At(s, e.w, t.workers[e.w]), issue, finished);
  }

  lemma ReleaseTasks(s: Broker, maxRetries: int, e: Event, issue: string, finished: bool)
    requires Enabled(s, e) && SameIssue(s) && e.Release?
    ensures Tasks(Next(s, maxRetries, e), issue, finished) == Tasks(s, issue, finished) + Delta(s, maxRetries, e, issue, finished)
  {
    var t := Next(s, maxRetries, e);
    if s.workers[e.w].requeue.Some? {
      HandsUpdate(s, e.w, t.workers[e.w], issue, finished);
      SameHands(t, At(s, e.w, t.workers[e.w]), issue, finished);
    } else {
      HandsLeave(s, e.w, issue, finished);
      SameHands(t, Leave(s, e.w), issue, finished);
    }
  }

  lemma PushTasks(s: Broker, maxRetries: int, w: nat, issue: string, finished: bool)
    requires Enabled(s, Push(w)) && SameIssue(s)
    ensures Tasks(Next(s, maxRetries, Push(w)), issue, finished) == Tasks(s, issue, finished)
  {
    var t := PushLeft(s, s.workers[w].again);
    PushCounts(s, s.workers[w].again, issue);
    SameHands(s, t, issue, finished);
    HandsLeave(t, w, issue, finished);
  }

  lemma StepTasks(s: Broker, maxRetries: int, e: Event, issue: string, finished: bool)
    requires Enabled(s, e) && SameIssue(s)
    ensures Tasks(Next(s, maxRetries, e), issue, finished) == Tasks(s, issue, finished) + Delta(s, maxRetries, e, issue, finished)
  {
    match e
    case Pop => PopTasks(s, maxRetries, issue, finished);
    case TryLock(w) => LockTasks(s, maxRetries, w, issue, finished);
    case Finish(_, _, _) => FinishTasks(s, maxRetries, e, issue, finished);
    case Release(_, _) => ReleaseTasks(s, maxRetries, e, issue, finished);
    case Push(w) => PushTasks(s, maxRetries, w, issue, finished);
    case Shutdown(_, _, _) => ShutdownTasks(s, maxRetries, e, issue, finished);
    case Expire(i) => SameHands(s, Next(s, maxRetries, e), issue, finished);
  }

  lemma StepLists(s: Broker, maxRetries: int, e: Event, issue: string)
    requires Enabled(s, e)
    ensures Listed(Next(s, maxRetries, e), issue) + Clears(s, maxRetries, e, issue)
         == Listed(s, issue) + One(Ends(s, maxRetries, e, issue) && !EndsUnlisted(s, maxRetries, e, issue))
  {
    if e.Finish? {
      FinishLists(s, maxRetries, e, issue);
    }
  }

  lemma CountCons(job: Job, q: seq<Job>, issue: string)
    ensures Count([job] + q, issue) == One(job.issue == issue) + Count(q, issue)
  {
  }

  lemma FinishLists(s: Broker, maxRetries: int, e: Event, issue: string)
    requires Enabled(s, e) && e.Finish?
    ensures Listed(Next(s, maxRetries, e), issue) + Clears(s, maxRetries, e, issue)
         == Listed(s, issue) + One(Ends(s, maxRetries, e, issue) && !EndsUnlisted(s, maxRetries, e, issue))
  {
    var (job, t) := (s.workers[e.w].job, Next(s, maxRetries, e));
    match Settle(job.task, maxRetries, e.final)
    case Completed =>
      assert t.errors == ClearResolved(s.errors, job, e.scanned);
      ClearCounts(s.errors, job, e.scanned, issue);
      CountCons(job, s.completed, issue);
    case Requeue(_) => assert t.errors == s.errors && t.completed == s.completed;
    case ErrorList =>
      assert t.completed == s.completed;
      CountCons(job, s.errors, issue);
  }

  /** What one event does: to the tasks, by being dropped, doubled, entered in a list or ended without an entry,
      and to the lists, by entering and clearing. */
  lemma StepConserves(s: Broker, maxRetries: int, e: Event, issue: string)
    requires Enabled(s, e) && SameIssue(s)
    ensures var t := Next(s, maxRetries, e);
      && Tasks(t, issue, false) + Amount(Dropped, s, maxRetries, e, issue) + Amount(Entered, s, maxRetries, e, issue)
           + Amount(Unlisted, s, maxRetries, e, issue)
         == Tasks(s, issue, false) + Amount(Doubled, s, maxRetries, e, issue)
      && Listed(t, issue) + Amount(Cleared, s, maxRetries, e, issue) == Listed(s, issue) + Amount(Entered, s, maxRetries, e, issue)
  {
    StepTasks(s, maxRetries, e, issue, false);
    StepLists(s, maxRetries, e, issue);
  }

  lemma StepKeepsIssues(s: Broker, maxRetries: int, e: Event)
    requires Enabled(s, e) && SameIssue(s)
    ensures SameIssue(Next(s, maxRetries, e))
  {
  }

  // ---------------------------------------------------------------- conservation

  /** Over all events. */
  function Total(kind: Kind, maxRetries: int, states: seq<Broker>, events: seq<Event>, issue: string): nat
    requires |states| >= |events|
  {
    if events == [] then 0
    else
      var n := |events| - 1;
      Amount(kind, states[n], maxRetries, events[n], issue) + Total(kind, maxRetries, states, events[..n], issue)
  }

  ghost predicate Idle(s: Broker) { s.workers == map[] && s.locks == map[] }

  /** Conservation after the first n events, for any workers, tasks, lock expiries, failed releases and shutdowns. */
  lemma {:induction false} TasksAreConserved(maxRetries: int, events: seq<Event>, states: seq<Broker>, issue: string, n: nat)
    requires IsHistory(maxRetries, events, states) && Idle(states[0]) && n <= |events|
    ensures SameIssue(states[n])
    ensures Tasks(states[n], issue, false) + Total(Dropped, maxRetries, states, events[..n], issue)
              + Total(Entered, maxRetries, states, events[..n], issue) + Total(Unlisted, maxRetries, states, events[..n], issue)
            == Tasks(states[0], issue, false) + Total(Doubled, maxRetries, states, events[..n], issue)
    ensures Listed(states[n], issue) + Total(Cleared, maxRetries, states, events[..n], issue)
            == Listed(states[0], issue) + Total(Entered, maxRetries, states, events[..n], issue)
  {
    if n > 0 {
      TasksAreConserved(maxRetries, events, states, issue, n - 1);
      assert events[..n][..n-1] == events[..n-1];
      StepConserves(states[n-1], maxRetries, events[n-1], issue);
      StepKeepsIssues(states[n-1], maxRetries, events[n-1]);
    }
  }

  lemma {:induction false} TotalIsZero(kind: Kind, maxRetries: int, states: seq<Broker>, events: seq<Event>, issue: string)
    requires |states| >= |events|
    ensures Total(kind, maxRetries, states, events, issue) == 0
       <==> forall i :: 0 <= i < |events| ==> Amount(kind, states[i], maxRetries, events[i], issue) == 0
  {
    if events != [] {
      var front := events[..|events|-1];
      TotalIsZero(kind, maxRetries, states, front, issue);
      assert forall i :: 0 <= i < |front| ==> front[i] == events[i];
    }
  }

  // ---------------------------------------------------------------- one live task per issue

  predicate Holder(s: Broker, w: nat, issue: string) {
    w in s.workers && s.workers[w].job.issue == issue && (s.workers[w].Working? || s.workers[w].Releasing?)
  }

  /** The lock was left behind: its owner is gone or already pushing. */
  predicate Stale(s: Broker, issue: string) { issue in s.locks && !Holder(s, s.locks[issue], issue) }

  /** A release of the issue's lock that did not get through, or an acquisition nobody waited for. */
  predicate LeavesLock(s: Broker, e: Event, issue: string) {
    || (e.Release? && !e.ok && e.w in s.workers && s.workers[e.w].job.issue == issue)
    || (e.Shutdown? && e.w in s.workers && s.workers[e.w].job.issue == issue
        && if s.workers[e.w].Popped? then e.sent else !e.ok && !s.workers[e.w].Pushing?)
  }

  lemma StaleNeedsFailedRelease(s: Broker, maxRetries: int, e: Event, issue: string)
    requires Enabled(s, e) && SameIssue(s) && !Stale(s, issue) && !LeavesLock(s, e, issue)
    ensures !Stale(Next(s, maxRetries, e), issue)
  {
  }

  lemma TwoMembers(hands: set<nat>, w: nat, v: nat)
    requires w != v && w in hands && v in hands
    ensures |hands| >= 2
  {
    assert hands == {w, v} + (hands - {w, v});
  }

  /** With a single task, a payload is dropped exactly when the lock it finds was left behind. */
  lemma DropIffStale(s: Broker, w: nat, issue: string)
    requires Enabled(s, TryLock(w)) && s.workers[w].job.issue == issue && Tasks(s, issue, true) <= 1
    ensures Drops(s, TryLock(w), issue) <==> Stale(s, issue)
  {
    if issue in s.locks && Holder(s, s.locks[issue], issue) {
      TwoMembers(Hands(s, issue, true), w, s.locks[issue]);
    }
  }

  /** No event doubles a task of the issue: no shutdown comes after the task was finished or pushed. */
  ghost predicate NoLateShutdown(events: seq<Event>, states: seq<Broker>, issue: string)
    requires |states| >= |events|
  {
    forall i :: 0 <= i < |events| ==> !Doubles(states[i], events[i], issue)
  }

  /** A worker tries a lock that was left behind. */
  predicate TriesStale(s: Broker, e: Event, issue: string) {
    e.TryLock? && e.w in s.workers && s.workers[e.w].job.issue == issue && Stale(s, issue)
  }

  lemma {:induction false} OnlyOneTask(maxRetries: int, events: seq<Event>, states: seq<Broker>, issue: string, n: nat)
    requires IsHistory(maxRetries, events, states) && Idle(states[0]) && Queued(states[0], issue) <= 1 && n <= |events|
    requires NoLateShutdown(events, states, issue)
    ensures SameIssue(states[n]) && Tasks(states[n], issue, true) <= 1
  {
    if n > 0 {
      OnlyOneTask(maxRetries, events, states, issue, n - 1);
      assert !Doubles(states[n-1], events[n-1], issue);
      StepTasks(states[n-1], maxRetries, events[n-1], issue, true);
      StepKeepsIssues(states[n-1], maxRetries, events[n-1]);
    }
  }

  lemma DroppedIffStale(maxRetries: int, events: seq<Event>, states: seq<Broker>, issue: string, i: nat)
    requires IsHistory(maxRetries, events, states) && Idle(states[0]) && Queued(states[0], issue) <= 1 && i < |events|
    requires NoLateShutdown(events, states, issue)
    ensures Amount(Dropped, states[i], maxRetries, events[i], issue) == 0 <==> !TriesStale(states[i], events[i], issue)
  {
    OnlyOneTask(maxRetries, events, states, issue, i);
    assert Enabled(states[i], events[i]);
    if events[i].TryLock? && states[i].workers[events[i].w].job.issue == issue {
      DropIffStale(states[i], events[i].w, issue);
    }
  }

  /** The task is queued, in a worker's hands, or was entered in one list: one of these, once. */
  predicate InOnePlace(maxRetries: int, events: seq<Event>, states: seq<Broker>, issue: string, n: nat)
    requires |states| > |events| && n <= |events|
  {
    Tasks(states[n], issue, false) + Total(Entered, maxRetries, states, events[..n], issue) == 1
  }

  /** The event loses no task of the issue, leaves none without an entry and makes no second copy. */
  predicate Harmless(s: Broker, maxRetries: int, e: Event, issue: string) {
    !TriesStale(s, e, issue) && !EndsUnlisted(s, maxRetries, e, issue) && !Doubles(s, e, issue)
  }

  lemma PlaceIfHarmless(maxRetries: int, events: seq<Event>, states: seq<Broker>, issue: string, n: nat)
    requires IsHistory(maxRetries, events, states) && Idle(states[0]) && Queued(states[0], issue) == 1 && n <= |events|
    requires forall i :: 0 <= i < |events| ==> Harmless(states[i], maxRetries, events[i], issue)
    ensures InOnePlace(maxRetries, events, states, issue, n)
  {
    var front := events[..n];
    assert Hands(states[0], issue, false) == {};
    forall i | 0 <= i < |events| ensures !Doubles(states[i], events[i], issue) {
      assert Harmless(states[i], maxRetries, events[i], issue);
    }
    TasksAreConserved(maxRetries, events, states, issue, n);
    TotalIsZero(Doubled, maxRetries, states, front, issue);
    TotalIsZero(Dropped, maxRetries, states, front, issue);
    TotalIsZero(Unlisted, maxRetries, states, front, issue);
    forall i | 0 <= i < n
      ensures Amount(Dropped, states[i], maxRetries, front[i], issue) == Amount(Unlisted, states[i], maxRetries, front[i], issue) == 0
      ensures Amount(Doubled, states[i], maxRetries, front[i], issue) == 0
    {
      DroppedIffStale(maxRetries, events, states, issue, i);
      assert Harmless(states[i], maxRetries, events[i], issue);
    }
  }

  /** Two events can make up for each other in the count, one cannot. */
  lemma PlaceNeedsNoDouble(maxRetries: int, events: seq<Event>, states: seq<Broker>, issue: string, i: nat)
    requires IsHistory(maxRetries, events, states) && Idle(states[0]) && i < |events|
    requires InOnePlace(maxRetries, events, states, issue, i) && InOnePlace(maxRetries, events, states, issue, i + 1)
    ensures !Doubles(states[i], events[i], issue) && !EndsUnlisted(states[i], maxRetries, events[i], issue)
    ensures !Drops(states[i], events[i], issue)
  {
    TasksAreConserved(maxRetries, events, states, issue, i);
    StepConserves(states[i], maxRetries, events[i], issue);
    assert events[..i+1][..i] == events[..i];
  }

  /** One live task, whatever the lists held before and whatever happens: it is always in exactly one place if and
      only if no worker ever tries a lock of the issue that was left behind, no modular success ends it without an
      entry, and no shutdown comes after it was finished or pushed. The lock of the run that requeued it is never
      in the way otherwise. */
  lemma AlwaysInOnePlace(maxRetries: int, events: seq<Event>, states: seq<Broker>, issue: string)
    requires IsHistory(maxRetries, events, states) && Idle(states[0]) && Queued(states[0], issue) == 1
    ensures (forall n :: 0 <= n <= |events| ==> InOnePlace(maxRetries, events, states, issue, n))
       <==> (forall i :: 0 <= i < |events| ==> Harmless(states[i], maxRetries, events[i], issue))
  {
    if forall i :: 0 <= i < |events| ==> Harmless(states[i], maxRetries, events[i], issue) {
      forall n | 0 <= n <= |events| ensures InOnePlace(maxRetries, events, states, issue, n) {
        PlaceIfHarmless(maxRetries, events, states, issue, n);
      }
    }
    if forall n :: 0 <= n <= |events| ==> InOnePlace(maxRetries, events, states, issue, n) {
      forall i | 0 <= i < |events|
        ensures !Doubles(states[i], events[i], issue) && !EndsUnlisted(states[i], maxRetries, events[i], issue)
        ensures !Drops(states[i], events[i], issue)
      {
        assert InOnePlace(maxRetries, events, states, issue, i) && InOnePlace(maxRetries, events, states, issue, i + 1);
        PlaceNeedsNoDouble(maxRetries, events, states, issue, i);
      }
      forall i | 0 <= i < |events| ensures Harmless(states[i], maxRetries, events[i], issue) {
        DroppedIffStale(maxRetries, events, states, issue, i);
      }
    }
  }

  lemma {:induction false} ReleasedIsNeverStale(maxRetries: int, events: seq<Event>, states: seq<Broker>, issue: string, i: nat)
    requires IsHistory(maxRetries, events, states) && Idle(states[0]) && i <= |events|
    requires forall j :: 0 <= j < |events| ==> !LeavesLock(states[j], events[j], issue)
    ensures !Stale(states[i], issue) && SameIssue(states[i])
  {
    if i > 0 {
      ReleasedIsNeverStale(maxRetries, events, states, issue, i - 1);
      assert !LeavesLock(states[i-1], events[i-1], issue);
      StaleNeedsFailedRelease(states[i-1], maxRetries, events[i-1], issue);
      StepKeepsIssues(states[i-1], maxRetries, events[i-1]);
    }
  }

  predicate Finished(stage: Stage, issue: string) { stage.job.issue == issue && stage.Releasing? && stage.requeue.None? }

  lemma OnlyEndsFinish(s: Broker, maxRetries: int, e: Event, issue: string, w: nat)
    requires Enabled(s, e) && w in Next(s, maxRetries, e).workers && Finished(Next(s, maxRetries, e).workers[w], issue)
    ensures Ends(s, maxRetries, e, issue) || (w in s.workers && Finished(s.workers[w], issue))
  {
  }

  /** The tasks of the issue that ended so far, with or without an entry. */
  function Ended(maxRetries: int, states: seq<Broker>, events: seq<Event>, issue: string): nat
    requires |states| >= |events|
  {
    Total(Entered, maxRetries, states, events, issue) + Total(Unlisted, maxRetries, states, events, issue)
  }

  lemma {:induction false} FinishedHasEnded(maxRetries: int, events: seq<Event>, states: seq<Broker>, issue: string, n: nat, w: nat)
    requires IsHistory(maxRetries, events, states) && Idle(states[0]) && n <= |events|
    requires w in states[n].workers && Finished(states[n].workers[w], issue)
    ensures Ended(maxRetries, states, events[..n], issue) >= 1
  {
    if n > 0 {
      assert events[..n][..n-1] == events[..n-1];
      OnlyEndsFinish(states[n-1], maxRetries, events[n-1], issue, w);
      if !Ends(states[n-1], maxRetries, events[n-1], issue) {
        FinishedHasEnded(maxRetries, events, states, issue, n - 1, w);
      }
    }
  }

  /** Whoever holds the lock that a dropped payload met has another copy, or ended one. */
  lemma DroppedIsNotTheLast(maxRetries: int, events: seq<Event>, states: seq<Broker>, issue: string, n: nat)
    requires IsHistory(maxRetries, events, states) && Idle(states[0]) && n < |events|
    requires Drops(states[n], events[n], issue) && !Stale(states[n], issue)
    ensures Tasks(states[n], issue, false) >= 2 || Ended(maxRetries, states, events[..n], issue) >= 1
  {
    var (s, w) := (states[n], events[n].w);
    var v := s.locks[issue];
    assert Enabled(s, events[n]);
    if Finished(s.workers[v], issue) {
      FinishedHasEnded(maxRetries, events, states, issue, n, v);
    } else {
      TwoMembers(Hands(s, issue, false), w, v);
    }
  }

  /** What a caller can check: if every release of the issue's lock gets through, a task is never lost, whatever
      workers are shut down: it is live, or was entered in a list, or ended as a modular success. */
  lemma {:induction false} NeverLost(maxRetries: int, events: seq<Event>, states: seq<Broker>, issue: string, n: nat)
    requires IsHistory(maxRetries, events, states) && Idle(states[0]) && Queued(states[0], issue) >= 1 && n <= |events|
    requires forall j :: 0 <= j < |events| ==> !LeavesLock(states[j], events[j], issue)
    ensures Tasks(states[n], issue, false) + Ended(maxRetries, states, events[..n], issue) >= 1
  {
    if n == 0 {
      assert Hands(states[0], issue, false) == {};
    } else {
      NeverLost(maxRetries, events, states, issue, n - 1);
      assert events[..n][..n-1] == events[..n-1];
      ReleasedIsNeverStale(maxRetries, events, states, issue, n - 1);
      StepConserves(states[n-1], maxRetries, events[n-1], issue);
      if Drops(states[n-1], events[n-1], issue) {
        DroppedIsNotTheLast(maxRetries, events, states, issue, n - 1);
      }
    }
  }

  /** Without late shutdowns there is exactly one of these. */
  lemma NeverLostNorDoubled(maxRetries: int, events: seq<Event>, states: seq<Broker>, issue: string, n: nat)
    requires IsHistory(maxRetries, events, states) && Idle(states[0]) && Queued(states[0], issue) == 1 && n <= |events|
    requires forall j :: 0 <= j < |events| ==> !LeavesLock(states[j], events[j], issue)
    requires NoLateShutdown(events, states, issue)
    ensures Tasks(states[n], issue, false) + Ended(maxRetries, states, events[..n], issue) == 1
  {
    var front := events[..n];
    assert Hands(states[0], issue, false) == {};
    NeverLost(maxRetries, events, states, issue, n);
    TasksAreConserved(maxRetries, events, states, issue, n);
    TotalIsZero(Doubled, maxRetries, states, front, issue);
    forall i | 0 <= i < n ensures Amount(Doubled, states[i], maxRetries, front[i], issue) == 0 {
      assert !Doubles(states[i], events[i], issue);
    }
  }

  // ---------------------------------------------------------------- ways to lose it, or to have it twice

  const CrashedRun := BackportModel.Start(Config(1, 1, false, false, false, true), Meta(false, None), Tree(0, 0, 0, 0),
                                          World(None, {}, [], 1)).(step := Crashed)

  const GoodRun := CrashedRun.(step := End, result := Some(Result(true, true)))

  /** Nobody is at work and the job is queued. */
  function Waiting(job: Job, completed: seq<Job>, errors: seq<Job>, n: nat): Broker {
    Broker([], [job], map[], map[], completed, errors, n)
  }

  /** Worker n has the job and the lock. */
  function InHand(job: Job, stage: Stage, completed: seq<Job>, errors: seq<Job>, n: nat): Broker {
    Broker([], [], map[job.issue := n], map[n := stage], completed, errors, n + 1)
  }

  function OneTask(job: Job): Broker { Waiting(job, [], [], 0) }

  lemma Begins(job: Job, maxRetries: int, completed: seq<Job>, errors: seq<Job>, n: nat)
    requires !job.todo
    ensures var t := Next(Waiting(job, completed, errors, n), maxRetries, Pop);
      && t == Broker([], [], map[], map[n := Popped(job)], completed, errors, n + 1)
      && Next(t, maxRetries, TryLock(n)) == InHand(job, Working(job), completed, errors, n)
  {
  }

  lemma Succeeds(job: Job, maxRetries: int, n: nat)
    ensures Next(InHand(job, Working(job), [], [], n), maxRetries, Finish(n, GoodRun, 0))
         == InHand(job, Releasing(job, None), if job.modular then [] else [job], [], n)
  {
  }

  lemma Fails(job: Job, maxRetries: int, errors: seq<Job>, n: nat)
    requires job.task.attempts + 1 >= maxRetries
    ensures Next(InHand(job, Working(job), [], errors, n), maxRetries, Finish(n, CrashedRun, 0))
         == InHand(job, Releasing(job, None), [], [job] + errors, n)
  {
  }

  lemma PutsBack(job: Job, maxRetries: int, completed: seq<Job>, errors: seq<Job>, n: nat)
    requires !job.todo
    ensures Next(InHand(job, Releasing(job, None), completed, errors, n), maxRetries, Shutdown(n, true, true))
         == Waiting(job, completed, errors, n + 1)
  {
  }

  /** A failed release loses the task: the next worker takes the requeued payload for a duplicate. */
  lemma FailedReleaseLosesTask(job: Job) returns (events: seq<Event>, states: seq<Broker>)
    requires !job.todo && job.task.attempts == 0
    ensures IsHistory(2, events, states) && states[0] == OneTask(job) && NoLateShutdown(events, states, job.issue)
    ensures Queued(states[0], job.issue) == 1
    ensures Tasks(states[|events|], job.issue, true) == 0 && Listed(states[|events|], job.issue) == 0
  {
    var again := job.(task := Task(CrashedRun.retry.meta, 1));
    events := [Pop, TryLock(0), Finish(0, CrashedRun, 0), Release(0, false), Push(0), Pop, TryLock(1)];
    Begins(job, 2, [], [], 0);
    var s2 := InHand(job, Working(job), [], [], 0);
    var s3 := InHand(job, Releasing(job, Some(again)), [], [], 0);
    assert Next(s2, 2, events[2]) == s3;
    var s4 := InHand(job, Pushing(job, again), [], [], 0);
    var s5 := Broker([], [again], map[job.issue := 0], map[], [], [], 1);
    assert Next(s4, 2, events[4]) == s5;
    var s6 := Broker([], [], map[job.issue := 0], map[1 := Popped(again)], [], [], 2);
    assert Next(s5, 2, events[5]) == s6;
    var s7 := Next(s6, 2, events[6]);
    states := [OneTask(job), Next(OneTask(job), 2, Pop), s2, s3, s4, s5, s6, s7];
    assert Count([job], job.issue) == 1;
    assert s7 == Broker([], [], map[job.issue := 0], map[], [], [], 2);
  }

  /** A modular success leaves no trace of the task, although every release got through. */
  lemma ModularLeavesNoEntry(job: Job) returns (events: seq<Event>, states: seq<Broker>)
    requires !job.todo && job.modular
    ensures IsHistory(2, events, states) && states[0] == OneTask(job) && NoLateShutdown(events, states, job.issue)
    ensures forall i :: 0 <= i < |events| ==> !LeavesLock(states[i], events[i], job.issue)
    ensures Queued(states[0], job.issue) == 1
    ensures Tasks(states[|events|], job.issue, true) == 0 && Listed(states[|events|], job.issue) == 0
  {
    events := [Pop, TryLock(0), Finish(0, GoodRun, 0), Release(0, true)];
    Begins(job, 2, [], [], 0);
    Succeeds(job, 2, 0);
    var done := InHand(job, Releasing(job, None), [], [], 0);
    var last := Next(done, 2, events[3]);
    states := [OneTask(job), Next(OneTask(job), 2, Pop), InHand(job, Working(job), [], [], 0), done, last];
    assert Count([job], job.issue) == 1;
    assert last == Broker([], [], map[], map[], [], [], 1);
  }

  /** A shutdown while the lock of a finished task is being released puts the task back: it is queued again, and
      it is on the completed list. */
  lemma LateShutdownDoubles(job: Job) returns (events: seq<Event>, states: seq<Broker>)
    requires !job.todo && !job.modular
    ensures IsHistory(2, events, states) && states[0] == OneTask(job) && Queued(states[0], job.issue) == 1
    ensures forall i :: 0 <= i < |events| ==> !LeavesLock(states[i], events[i], job.issue)
    ensures Queued(states[|events|], job.issue) == 1 && Count(states[|events|].completed, job.issue) == 1
  {
    events := [Pop, TryLock(0), Finish(0, GoodRun, 0), Shutdown(0, true, true)];
    Begins(job, 2, [], [], 0);
    Succeeds(job, 2, 0);
    PutsBack(job, 2, [job], [], 0);
    states := [OneTask(job), Next(OneTask(job), 2, Pop), InHand(job, Working(job), [], [], 0),
               InHand(job, Releasing(job, None), [job], [], 0), Waiting(job, [job], [], 1)];
    assert Count([job], job.issue) == 1;
  }

  // ---------------------------------------------------------------- what a success clears

  lemma {:induction false} UnresolvedMembers(errors: seq<Job>, job: Job, x: Job)
    ensures multiset(Unresolved(errors, job))[x] == if Resolves(job, x) then 0 else multiset(errors)[x]
  {
    if errors != [] {
      UnresolvedMembers(errors[1..], job, x);
      assert errors == [errors[0]] + errors[1..];
    }
  }

  /** A success clears, of the entries gone through, exactly those of its issue, branch and queue. */
  lemma ClearedAreResolved(errors: seq<Job>, job: Job, scanned: nat, x: Job)
    ensures var n := if scanned < |errors| then scanned else |errors|;
      multiset(errors)[x] == multiset(ClearResolved(errors, job, scanned))[x] + if Resolves(job, x) then multiset(errors[..n])[x] else 0
  {
    var n := if scanned < |errors| then scanned else |errors|;
    UnresolvedMembers(errors[..n], job, x);
    assert errors == errors[..n] + errors[n..];
  }

  /** Entry by entry, from the newest: the rest stay, in their order. */
  lemma ClearedStep(entry: Job, rest: seq<Job>, job: Job, scanned: nat)
    ensures ClearResolved([entry] + rest, job, scanned + 1) ==
      (if entry.issue == job.issue && entry.branch == job.branch && entry.queue == job.queue then [] else [entry])
      + ClearResolved(rest, job, scanned)
    ensures ClearResolved(rest, job, 0) == rest
  {
    var n := if scanned < |rest| then scanned else |rest|;
    var errors := [entry] + rest;
    assert errors[..n+1] == [entry] + rest[..n] && errors[n+1..] == rest[n..];
    assert ([entry] + rest[..n])[1..] == rest[..n];
    ConcatAssoc(if Resolves(job, entry) then [] else [entry], Unresolved(rest[..n], job), rest[n..]);
    assert rest[..0] == [] && rest[0..] == rest && [] + rest == rest;
  }

  // ---------------------------------------------------------------- how often one task runs

  /** Every copy of the issue's task carries this many attempts. */
  ghost predicate AllAttempts(s: Broker, issue: string, n: nat) {
    && (forall job :: job in s.todo + s.normal && job.issue == issue ==> job.task.attempts == n)
    && (forall w <- s.workers :: Has(s.workers[w], issue, false) ==> Carried(s.workers[w]).task.attempts == n)
  }

  /** The payload this worker will push, or is still working on. */
  function Carried(stage: Stage): Job {
    match stage
    case Popped(job) => job
    case Working(job) => job
    case Releasing(job, requeue) => if requeue.Some? then requeue.value else job
    case Pushing(_, again) => again
  }

  /** A shutdown after the run: the payload that is put back has the attempts it was popped with. */
  predicate CancelsLate(s: Broker, e: Event, issue: string) {
    e.Shutdown? && e.w in s.workers && s.workers[e.w].job.issue == issue && (s.workers[e.w].Releasing? || s.workers[e.w].Pushing?)
  }

  lemma {:induction false} NotCounted(q: seq<Job>, issue: string)
    requires Count(q, issue) == 0
    ensures forall job <- q :: job.issue != issue
  {
    if q != [] {
      NotCounted(q[1..], issue);
    }
  }

  /** When the only task is in the hands of w, nobody else has one. */
  lemma OnlyHand(s: Broker, issue: string, w: nat)
    requires w in Hands(s, issue, true) && Tasks(s, issue, true) <= 1
    ensures forall job :: job in s.todo + s.normal ==> job.issue != issue
    ensures Hands(s, issue, true) == {w}
  {
    assert Hands(s, issue, true) == {w} + (Hands(s, issue, true) - {w});
    NotCounted(s.todo, issue);
    NotCounted(s.normal, issue);
  }

  lemma FinishAttempts(s: Broker, maxRetries: int, e: Event, issue: string, n: nat)
    requires Enabled(s, e) && Finishes(s, e, issue) && Tasks(s, issue, true) <= 1 && AllAttempts(s, issue, n)
    ensures var t := Next(s, maxRetries, e);
      AllAttempts(t, issue, n + 1) && (Tasks(t, issue, false) > 0 ==> n + 1 < maxRetries)
  {
    OnlyHand(s, issue, e.w);
    var t := Next(s, maxRetries, e);
    assert Carried(s.workers[e.w]).task.attempts == n;
    forall v <- t.workers | v != e.w ensures !Has(t.workers[v], issue, false) {
      assert v !in Hands(s, issue, true);
    }
    if t.workers[e.w].requeue.None? {
      assert Hands(t, issue, false) == {};
      NoneCounted(t.todo, issue);
      NoneCounted(t.normal, issue);
    }
  }

  lemma {:induction false} NoneCounted(q: seq<Job>, issue: string)
    requires forall job <- q :: job.issue != issue
    ensures Count(q, issue) == 0
  {
    if q != [] {
      NoneCounted(q[1..], issue);
    }
  }

  lemma OtherQueues(s: Broker, maxRetries: int, e: Event, issue: string, n: nat)
    requires Enabled(s, e) && SameIssue(s) && AllAttempts(s, issue, n) && !CancelsLate(s, e, issue)
    ensures var t := Next(s, maxRetries, e);
      forall job :: job in t.todo + t.normal && job.issue == issue ==> job.task.attempts == n
  {
    match e
    case Push(w) => assert Has(s.workers[w], issue, false) ==> Carried(s.workers[w]).task.attempts == n;
    case Shutdown(w, _, _) => assert SameJob(s.workers[w]);
    case _ =>
  }

  lemma OtherWorkers(s: Broker, maxRetries: int, e: Event, issue: string, n: nat)
    requires Enabled(s, e) && SameIssue(s) && AllAttempts(s, issue, n)
    requires !Finishes(s, e, issue) && !CancelsLate(s, e, issue)
    ensures var t := Next(s, maxRetries, e);
      forall w <- t.workers :: Has(t.workers[w], issue, false) ==> Carried(t.workers[w]).task.attempts == n
  {
  }

  lemma OtherAttempts(s: Broker, maxRetries: int, e: Event, issue: string, n: nat)
    requires Enabled(s, e) && SameIssue(s) && AllAttempts(s, issue, n)
    requires !Finishes(s, e, issue) && !CancelsLate(s, e, issue)
    ensures AllAttempts(Next(s, maxRetries, e), issue, n)
  {
    OtherQueues(s, maxRetries, e, issue, n);
    OtherWorkers(s, maxRetries, e, issue, n);
  }

  function Runs(states: seq<Broker>, events: seq<Event>, issue: string): nat
    requires |states| >= |events|
  {
    if events == [] then 0
    else One(Finishes(states[|events|-1], events[|events|-1], issue)) + Runs(states, events[..|events|-1], issue)
  }

  lemma StepAttempts(s: Broker, maxRetries: int, e: Event, issue: string, n: nat)
    requires Enabled(s, e) && SameIssue(s) && AllAttempts(s, issue, n) && Tasks(s, issue, true) <= 1 && !CancelsLate(s, e, issue)
    ensures var t := Next(s, maxRetries, e);
      if Finishes(s, e, issue) then AllAttempts(t, issue, n + 1) && (Tasks(t, issue, false) > 0 ==> n + 1 < maxRetries)
      else AllAttempts(t, issue, n) && Tasks(t, issue, false) <= Tasks(s, issue, false)
  {
    if Finishes(s, e, issue) {
      FinishAttempts(s, maxRetries, e, issue, n);
    } else {
      OtherAttempts(s, maxRetries, e, issue, n);
      StepTasks(s, maxRetries, e, issue, false);
    }
  }

  lemma {:induction false} AttemptsInv(maxRetries: int, events: seq<Event>, states: seq<Broker>, issue: string, n: nat, i: nat)
    requires IsHistory(maxRetries, events, states) && Idle(states[0]) && Queued(states[0], issue) <= 1 && i <= |events|
    requires AllAttempts(states[0], issue, n)
    requires forall j :: 0 <= j < |events| ==> !CancelsLate(states[j], events[j], issue)
    ensures var k := Runs(states, events[..i], issue);
      && SameIssue(states[i]) && Tasks(states[i], issue, true) <= 1 && AllAttempts(states[i], issue, n + k)
      && (k > 0 && Tasks(states[i], issue, false) > 0 ==> n + k < maxRetries) && k <= Max(1, maxRetries - n)
  {
    if i > 0 {
      AttemptsInv(maxRetries, events, states, issue, n, i - 1);
      var (s, e, k) := (states[i-1], events[i-1], Runs(states, events[..i-1], issue));
      assert !CancelsLate(s, e, issue);
      assert events[..i][..i-1] == events[..i-1];
      StepAttempts(s, maxRetries, e, issue, n + k);
      StepTasks(s, maxRetries, e, issue, true);
      StepKeepsIssues(s, maxRetries, e);
      if Finishes(s, e, issue) {
        assert e.w in Hands(s, issue, false);
      }
    }
  }

  /** A task that is the only one of its issue is run to an outcome at most max(1, maxRetries) times, unless a
      worker is shut down between the outcome and its requeue. */
  lemma RunAtMostMaxRetries(maxRetries: int, events: seq<Event>, states: seq<Broker>, issue: string, n: nat)
    requires IsHistory(maxRetries, events, states) && Idle(states[0]) && Queued(states[0], issue) <= 1
    requires AllAttempts(states[0], issue, n)
    requires forall j :: 0 <= j < |events| ==> !CancelsLate(states[j], events[j], issue)
    ensures Runs(states, events, issue) <= Max(1, maxRetries - n)
  {
    AttemptsInv(maxRetries, events, states, issue, n, |events|);
    assert events[..|events|] == events;
  }

  /** A task that may run once, and whose worker is shut down after its failure was recorded, runs again. */
  lemma LateShutdownRunsAgain(job: Job) returns (events: seq<Event>, states: seq<Broker>)
    requires !job.todo && job.task.attempts == 0
    ensures IsHistory(1, events, states) && states[0] == OneTask(job) && AllAttempts(states[0], job.issue, 0)
    ensures Queued(states[0], job.issue) == 1 && Runs(states, events, job.issue) >= 2 > Max(1, 1)
  {
    events := [Pop, TryLock(0), Finish(0, CrashedRun, 0), Shutdown(0, true, true), Pop, TryLock(1), Finish(1, CrashedRun, 0)];
    Begins(job, 1, [], [], 0);
    Fails(job, 1, [], 0);
    PutsBack(job, 1, [], [job], 0);
    Begins(job, 1, [], [job], 1);
    Fails(job, 1, [job], 1);
    var again := Waiting(job, [], [job], 1);
    states := [OneTask(job), Next(OneTask(job), 1, Pop), InHand(job, Working(job), [], [], 0),
               InHand(job, Releasing(job, None), [], [job], 0), again, Next(again, 1, Pop),
               InHand(job, Working(job), [], [job], 1), InHand(job, Releasing(job, None), [], [job, job], 1)];
    assert [job] + [job] == [job, job];
    assert Count([job], job.issue) == 1;
    RunCounts(states, events, job.issue, 6);
    RunCounts(states, events[..6], job.issue, 2);
  }

  lemma {:induction false} RunCounts(states: seq<Broker>, events: seq<Event>, issue: string, i: nat)
    requires |states| >= |events| > i && Finishes(states[i], events[i], issue)
    ensures Runs(states, events, issue) >= 1 + Runs(states, events[..i], issue)
  {
    var n := |events| - 1;
    if i < n {
      RunCounts(states, events[..n], issue, i);
      assert events[..n][..i] == events[..i];
    }
  }
}

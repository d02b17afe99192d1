/** What each event of the backport queue does, and that a failed task with attempts left is queued again. */
module TaskRetries {
  import opened Common
  import BackportModel
  import opened BackportRuns
  import opened TaskQueue

  // ---------------------------------------------------------------- the events

  predicate SameLists(s: Broker, t: Broker) { t.completed == s.completed && t.errors == s.errors }

  predicate SameQueues(s: Broker, t: Broker) { t.todo == s.todo && t.normal == s.normal }

  ghost predicate SameOthers(s: Broker, t: Broker, w: nat) {
    forall v :: v != w ==> (v in t.workers <==> v in s.workers) && (v in s.workers && v in t.workers ==> t.workers[v] == s.workers[v])
  }

  ghost predicate SameLocksBut(s: Broker, t: Broker, issue: string) {
    forall i :: i != issue ==> (i in t.locks <==> i in s.locks) && (i in s.locks && i in t.locks ==> t.locks[i] == s.locks[i])
  }

  ghost predicate SameLocks(s: Broker, t: Broker, issue: string) {
    SameLocksBut(s, t, issue) && (issue in t.locks <==> issue in s.locks) && (issue in s.locks ==> t.locks[issue] == s.locks[issue])
  }

  predicate Owns(s: Broker, w: nat, issue: string) { issue in s.locks && s.locks[issue] == w }

  /** A new worker gets the last payload of the line in which the priority queue stands at the end. */
  lemma PopServes(s: Broker, maxRetries: int)
    requires Enabled(s, Pop)
    ensures var t := Next(s, maxRetries, Pop);
      && s.next in t.workers && t.workers[s.next].Popped?
      && t.normal + t.todo + [t.workers[s.next].job] == s.normal + s.todo
      && (s.todo != [] ==> t.normal == s.normal)
      && t.next == s.next + 1 && SameOthers(s, t, s.next) && t.locks == s.locks && SameLists(s, t)
  {
    var t := Next(s, maxRetries, Pop);
    var q := if s.todo != [] then s.todo else s.normal;
    assert q == q[..|q|-1] + [q[|q|-1]];
  }

  /** The lock goes to the worker that finds it free; any other drops its payload. */
  lemma LockTaken(s: Broker, maxRetries: int, w: nat)
    requires Enabled(s, TryLock(w))
    ensures var t, issue := Next(s, maxRetries, TryLock(w)), s.workers[w].job.issue;
      && (w in t.workers <==> issue !in s.locks) && (w in t.workers ==> t.workers[w] == Working(s.workers[w].job))
      && issue in t.locks && t.locks[issue] == (if issue in s.locks then s.locks[issue] else w)
      && SameLocksBut(s, t, issue) && SameOthers(s, t, w) && SameQueues(s, t) && SameLists(s, t)
  {
  }

  /** The run can be tried again: it failed, the failure allows it, and an attempt is left. */
  predicate Retries(job: Job, maxRetries: int, final: BackportModel.State) {
    && !Succeeded(final) && job.task.attempts + 1 < maxRetries
    && (Unfinished(final) || final.retry.mode.Full? || ResumesPublication(final))
  }

  /** The payload of the next attempt. */
  predicate IsRetry(job: Job, final: BackportModel.State, again: Job) {
    && again.issue == job.issue && again.branch == job.branch && again.queue == job.queue
    && again.todo == job.todo && again.modular == job.modular
    && again.task.attempts == job.task.attempts + 1
    && again.task.meta.disabled == final.retry.meta.disabled
    && again.task.meta.checkpoint == if ResumesPublication(final) then final.retry.checkpoint else final.retry.meta.checkpoint
  }

  /** A success of a non-modular task is recorded, a failure that is not retried is listed; the worker keeps what
      it has to requeue, still under its lock. */
  lemma FinishRecords(s: Broker, maxRetries: int, w: nat, final: BackportModel.State, scanned: nat)
    requires Enabled(s, Finish(w, final, scanned))
    ensures var (job, t) := (s.workers[w].job, Next(s, maxRetries, Finish(w, final, scanned)));
      && w in t.workers && t.workers[w].Releasing? && t.workers[w].job == job
      && (t.workers[w].requeue.Some? <==> Retries(job, maxRetries, final))
      && (Retries(job, maxRetries, final) ==> IsRetry(job, final, t.workers[w].requeue.value))
      && t.completed == (if Succeeded(final) && !job.modular then [job] + s.completed else s.completed)
      && (Succeeded(final) ==> t.errors == ClearResolved(s.errors, job, scanned))
      && (!Succeeded(final) ==> t.errors == if Retries(job, maxRetries, final) then s.errors else [job] + s.errors)
      && SameOthers(s, t, w) && SameQueues(s, t) && t.locks == s.locks
  {
    SettleIs(s.workers[w].job.task, maxRetries, final);
  }

  /** The worker's own lock is gone exactly if the release got through, and nobody else's. */
  lemma ReleaseFrees(s: Broker, maxRetries: int, w: nat, ok: bool)
    requires Enabled(s, Release(w, ok))
    ensures var (stage, t) := (s.workers[w], Next(s, maxRetries, Release(w, ok)));
      && (w in t.workers <==> stage.requeue.Some?)
      && (w in t.workers ==> t.workers[w] == Pushing(stage.job, stage.requeue.value))
      && (ok && Owns(s, w, stage.job.issue) ==> stage.job.issue !in t.locks)
      && (!ok || !Owns(s, w, stage.job.issue) ==> SameLocks(s, t, stage.job.issue))
      && SameLocksBut(s, t, stage.job.issue) && SameOthers(s, t, w) && SameQueues(s, t) && SameLists(s, t)
  {
  }

  /** A job joins its own queue behind everything that is already there. */
  predicate JoinsQueue(s: Broker, t: Broker, job: Job) {
    if job.todo then t.todo == [job] + s.todo && t.normal == s.normal else t.normal == [job] + s.normal && t.todo == s.todo
  }

  /** The job is the first to be served in its own queue. */
  predicate HeadsQueue(s: Broker, t: Broker, job: Job) {
    if job.todo then t.todo == s.todo + [job] && t.normal == s.normal else t.normal == s.normal + [job] && t.todo == s.todo
  }

  lemma PushQueues(s: Broker, maxRetries: int, w: nat)
    requires Enabled(s, Push(w))
    ensures var t := Next(s, maxRetries, Push(w));
      && JoinsQueue(s, t, s.workers[w].again) && w !in t.workers
      && SameOthers(s, t, w) && t.locks == s.locks && SameLists(s, t)
  {
  }

  /** A cancelled worker's payload comes first again, as it was popped; a retry that was being pushed may be
      queued besides. Its lock is gone if the release got through. */
  lemma ShutdownReturns(s: Broker, maxRetries: int, w: nat, ok: bool, sent: bool)
    requires Enabled(s, Shutdown(w, ok, sent))
    ensures var (stage, t) := (s.workers[w], Next(s, maxRetries, Shutdown(w, ok, sent)));
      && w !in t.workers && SameOthers(s, t, w) && SameLists(s, t)
      && (if stage.Pushing? && sent then exists m :: JoinsQueue(s, m, stage.again) && HeadsQueue(m, t, stage.job)
          else HeadsQueue(s, t, stage.job))
      && SameLocksBut(s, t, stage.job.issue)
      && (ok && Holder(s, w, stage.job.issue) && Owns(s, w, stage.job.issue) ==> stage.job.issue !in t.locks)
      && (!ok && !stage.Popped? ==> SameLocks(s, t, stage.job.issue))
      && (stage.Popped? && !sent ==> SameLocks(s, t, stage.job.issue))
      && (stage.Popped? && sent && stage.job.issue !in s.locks ==> Owns(t, w, stage.job.issue))
  {
    var stage := s.workers[w];
    if stage.Pushing? && sent {
      var m := PushLeft(s, stage.again);
      assert JoinsQueue(s, m, stage.again) && HeadsQueue(m, Next(s, maxRetries, Shutdown(w, ok, sent)), stage.job);
    }
  }

  // ---------------------------------------------------------------- a retry reaches its queue

  /** The worker is on its way to push a retry of the job. */
  predicate OnItsWay(s: Broker, w: nat, job: Job, final: BackportModel.State) {
    && w in s.workers && s.workers[w].job == job
    && match s.workers[w]
       case Releasing(_, requeue) => requeue.Some? && IsRetry(job, final, requeue.value)
       case Pushing(_, again) => IsRetry(job, final, again)
       case _ => false
  }

  /** The event is the worker's push or its shutdown. */
  predicate Departs(e: Event, w: nat) { e == Push(w) || (e.Shutdown? && e.w == w) }

  lemma StaysOnItsWay(s: Broker, maxRetries: int, e: Event, w: nat, job: Job, final: BackportModel.State)
    requires Enabled(s, e) && SameIssue(s) && OnItsWay(s, w, job, final) && !Departs(e, w)
    ensures OnItsWay(Next(s, maxRetries, e), w, job, final)
  {
  }

  lemma {:induction false} RetryIsOnItsWay(maxRetries: int, events: seq<Event>, states: seq<Broker>,
    i: nat, w: nat, final: BackportModel.State, scanned: nat, n: nat)
    requires IsHistory(maxRetries, events, states) && Idle(states[0]) && i < n <= |events|
    requires events[i] == Finish(w, final, scanned) && w in states[i].workers && Retries(states[i].workers[w].job, maxRetries, final)
    requires forall j :: i < j < n ==> !Departs(events[j], w)
    ensures OnItsWay(states[n], w, states[i].workers[w].job, final)
  {
    var job := states[i].workers[w].job;
    if n == i + 1 {
      FinishRecords(states[i], maxRetries, w, final, scanned);
    } else {
      RetryIsOnItsWay(maxRetries, events, states, i, w, final, scanned, n - 1);
      TasksAreConserved(maxRetries, events, states, job.issue, n - 1);
      StaysOnItsWay(states[n-1], maxRetries, events[n-1], w, job, final);
    }
  }

  /** The worker is gone, or leaves without a push. */
  predicate PushesNothing(s: Broker, w: nat) {
    w < s.next && (w in s.workers ==> s.workers[w].Releasing? && s.workers[w].requeue.None?)
  }

  lemma StillPushesNothing(s: Broker, maxRetries: int, e: Event, w: nat)
    requires Enabled(s, e) && PushesNothing(s, w)
    ensures PushesNothing(Next(s, maxRetries, e), w)
  {
  }

  lemma {:induction false} NeverPushes(maxRetries: int, events: seq<Event>, states: seq<Broker>, w: nat, i: nat, k: nat)
    requires IsHistory(maxRetries, events, states) && i <= k < |events| && PushesNothing(states[i], w)
    ensures events[k] != Push(w)
    decreases k - i
  {
    assert Enabled(states[i], events[i]);
    if i < k {
      StillPushesNothing(states[i], maxRetries, events[i], w);
      NeverPushes(maxRetries, events, states, w, i + 1, k);
    }
  }

  lemma FinishOfNoRetry(s: Broker, maxRetries: int, w: nat, final: BackportModel.State, scanned: nat)
    requires Enabled(s, Finish(w, final, scanned)) && SameIssue(s) && !Retries(s.workers[w].job, maxRetries, final)
    ensures PushesNothing(Next(s, maxRetries, Finish(w, final, scanned)), w)
  {
    FinishRecords(s, maxRetries, w, final, scanned);
  }

  lemma DepartedPushesNothing(s: Broker, maxRetries: int, e: Event, w: nat)
    requires Enabled(s, e) && SameIssue(s) && Departs(e, w)
    ensures PushesNothing(Next(s, maxRetries, e), w)
  {
  }

  /** In any history: if the worker that finished a run pushes anything later, the run is retried, and what joins
      its own queue then is the payload of the next attempt. */
  lemma RetryIsQueued(maxRetries: int, events: seq<Event>, states: seq<Broker>,
    i: nat, w: nat, final: BackportModel.State, scanned: nat, k: nat)
    requires IsHistory(maxRetries, events, states) && Idle(states[0]) && i < k < |events|
    requires events[i] == Finish(w, final, scanned) && events[k] == Push(w)
    ensures w in states[i].workers && Retries(states[i].workers[w].job, maxRetries, final)
    ensures exists again :: IsRetry(states[i].workers[w].job, final, again) && JoinsQueue(states[k], states[k+1], again)
  {
    assert Enabled(states[i], events[i]) && Enabled(states[k], events[k]);
    TasksAreConserved(maxRetries, events, states, "", i);
    if !Retries(states[i].workers[w].job, maxRetries, final) {
      FinishOfNoRetry(states[i], maxRetries, w, final, scanned);
      NeverPushes(maxRetries, events, states, w, i + 1, k);
    } else {
      forall j | i < j < k ensures !Departs(events[j], w) {
        if Departs(events[j], w) {
          TasksAreConserved(maxRetries, events, states, "", j);
          DepartedPushesNothing(states[j], maxRetries, events[j], w);
          NeverPushes(maxRetries, events, states, w, j + 1, k);
        }
      }
      RetryIsOnItsWay(maxRetries, events, states, i, w, final, scanned, k);
      PushQueues(states[k], maxRetries, w);
    }
  }

  /** And in every state between, unless the worker is shut down, the retry is on its way; the worker can go on
      by releasing and pushing whatever the others do. */
  lemma RetryIsNotForgotten(maxRetries: int, events: seq<Event>, states: seq<Broker>,
    i: nat, w: nat, final: BackportModel.State, scanned: nat)
    requires IsHistory(maxRetries, events, states) && Idle(states[0]) && i < |events|
    requires events[i] == Finish(w, final, scanned) && w in states[i].workers && Retries(states[i].workers[w].job, maxRetries, final)
    requires forall j :: i < j < |events| ==> !Departs(events[j], w)
    ensures var t := states[|events|];
      if w in t.workers && t.workers[w].Releasing?
      then Enabled(t, Release(w, true)) && Enabled(Next(t, maxRetries, Release(w, true)), Push(w))
      else Enabled(t, Push(w))
  {
    RetryIsOnItsWay(maxRetries, events, states, i, w, final, scanned, |events|);
    var t := states[|events|];
    if t.workers[w].Releasing? {
      ReleaseFrees(t, maxRetries, w, true);
    }
  }

  // ---------------------------------------------------------------- one worker per issue

  /** Whoever works on the issue, or is about to release its lock, has the lock. */
  ghost predicate HoldersOwn(s: Broker, issue: string) {
    forall w <- s.workers :: Holder(s, w, issue) ==> Owns(s, w, issue)
  }

  lemma OthersOwn(s: Broker, t: Broker, w: nat, issue: string)
    requires HoldersOwn(s, issue) && SameOthers(s, t, w)
    requires forall v :: v != w && Owns(s, v, issue) ==> Owns(t, v, issue)
    requires Holder(t, w, issue) ==> Owns(t, w, issue)
    ensures HoldersOwn(t, issue)
  {
    forall v <- t.workers | Holder(t, v, issue) ensures Owns(t, v, issue) {
      assert v != w ==> Holder(s, v, issue);
    }
  }

  lemma StepKeepsOwners(s: Broker, maxRetries: int, e: Event, issue: string)
    requires Enabled(s, e) && SameIssue(s) && HoldersOwn(s, issue) && e != Expire(issue)
    ensures HoldersOwn(Next(s, maxRetries, e), issue)
  {
    var t := Next(s, maxRetries, e);
    match e
    case Pop =>
      PopServes(s, maxRetries);
      OthersOwn(s, t, s.next, issue);
    case TryLock(w) =>
      LockTaken(s, maxRetries, w);
      OthersOwn(s, t, w, issue);
    case Finish(w, final, scanned) =>
      FinishRecords(s, maxRetries, w, final, scanned);
      OthersOwn(s, t, w, issue);
    case Release(w, ok) =>
      ReleaseFrees(s, maxRetries, w, ok);
      OthersOwn(s, t, w, issue);
    case Push(w) =>
      PushQueues(s, maxRetries, w);
      OthersOwn(s, t, w, issue);
    case Expire(_) => assert forall w :: Holder(t, w, issue) ==> Holder(s, w, issue);
    case Shutdown(w, ok, sent) =>
      ShutdownReturns(s, maxRetries, w, ok, sent);
      OthersOwn(s, t, w, issue);
  }

  lemma {:induction false} OwnersInv(maxRetries: int, events: seq<Event>, states: seq<Broker>, issue: string, n: nat)
    requires IsHistory(maxRetries, events, states) && Idle(states[0]) && n <= |events|
    requires forall j :: 0 <= j < n ==> events[j] != Expire(issue)
    ensures HoldersOwn(states[n], issue) && SameIssue(states[n])
  {
    if n > 0 {
      OwnersInv(maxRetries, events, states, issue, n - 1);
      StepKeepsOwners(states[n-1], maxRetries, events[n-1], issue);
      StepKeepsIssues(states[n-1], maxRetries, events[n-1]);
    }
  }

  /** As long as the issue's lock does not expire, at most one worker works on the issue, whatever is released,
      cancelled or lost. */
  lemma OneWorkerPerIssue(maxRetries: int, events: seq<Event>, states: seq<Broker>, issue: string, n: nat, v: nat, w: nat)
    requires IsHistory(maxRetries, events, states) && Idle(states[0]) && n <= |events|
    requires forall j :: 0 <= j < n ==> events[j] != Expire(issue)
    requires Holder(states[n], v, issue) && Holder(states[n], w, issue)
    ensures v == w && Owns(states[n], w, issue)
  {
    OwnersInv(maxRetries, events, states, issue, n);
  }

  /** One step of a history with three attempts. */
  predicate Leads(s: Broker, e: Event, t: Broker) { Enabled(s, e) && t == Next(s, 3, e) }

  lemma LeadsOn(events: seq<Event>, states: seq<Broker>)
    requires |states| == |events| + 1 && forall i :: 0 <= i < |events| ==> Leads(states[i], events[i], states[i+1])
    ensures IsHistory(3, events, states)
  {
    forall i | 0 <= i < |events| ensures Enabled(states[i], events[i]) && states[i+1] == Next(states[i], 3, events[i]) {
      assert Leads(states[i], events[i], states[i+1]);
    }
  }

  /** A lock that expires under its owner lets a second worker in. */
  lemma ExpiredLockLetsIn(first: Job, second: Job) returns (events: seq<Event>, states: seq<Broker>)
    requires !first.todo && !second.todo && first.issue == second.issue
    ensures IsHistory(3, events, states) && Idle(states[0])
    ensures Holder(states[|events|], 0, first.issue) && Holder(states[|events|], 1, first.issue)
  {
    events := [Pop, TryLock(0), Expire(first.issue), Pop, TryLock(1)];
    var q := [second, first];
    var s0 := Broker([], q, map[], map[], [], [], 0);
    var s1 := Broker([], [second], map[], map[0 := Popped(first)], [], [], 1);
    var s2 := s1.(locks := map[first.issue := 0], workers := map[0 := Working(first)]);
    var s3 := s2.(locks := map[]);
    var s4 := Broker([], [], map[], map[0 := Working(first), 1 := Popped(second)], [], [], 2);
    var s5 := s4.(locks := map[first.issue := 1], workers := map[0 := Working(first), 1 := Working(second)]);
    PopsLast(s0, [second], first);
    PopsLast(s3, [], second);
    assert Leads(s1, events[1], s2) && Leads(s2, events[2], s3) && Leads(s4, events[4], s5);
    states := [s0, s1, s2, s3, s4, s5];
    LeadsOn(events, states);
    assert Holder(s5, 0, first.issue) && Holder(s5, 1, first.issue);
  }

  lemma PopsLast(s: Broker, rest: seq<Job>, job: Job)
    requires s.todo == [] && s.normal == rest + [job]
    ensures Leads(s, Pop, s.(normal := rest, workers := s.workers[s.next := Popped(job)], next := s.next + 1))
  {
    assert (rest + [job])[..|rest|] == rest;
  }

  // ---------------------------------------------------------------- an ordinary retry

  /** A run that ended without success on the normal path. */
  const FailedRun := CrashedRun.(step := BackportModel.End, result := Some(BackportModel.Result(false, false)))

  /** Nobody is at work; the errors are those of job. */
  function Resting(errors: seq<Job>, n: nat): Broker { Broker([], [], map[], map[], [], errors, n) }

  function AtWork(job: Job, stage: Stage, completed: seq<Job>, errors: seq<Job>, n: nat): Broker {
    Broker([], [], if stage.Popped? || stage.Pushing? then map[] else map[job.issue := n], map[n := stage], completed, errors, n + 1)
  }

  lemma AttemptBegins(job: Job, errors: seq<Job>, n: nat)
    ensures Leads(PushRight(Resting(errors, n), job), Pop, AtWork(job, Popped(job), [], errors, n))
    ensures Leads(AtWork(job, Popped(job), [], errors, n), TryLock(n), AtWork(job, Working(job), [], errors, n))
  {
    assert ([] + [job])[..0] == [];
  }

  lemma AttemptFails(job: Job, errors: seq<Job>, n: nat)
    requires job.task.attempts == 0
    ensures var again := job.(task := Task(FailedRun.retry.meta, 1));
      && Leads(AtWork(job, Working(job), [], errors, n), Finish(n, FailedRun, 0), AtWork(job, Releasing(job, Some(again)), [], errors, n))
      && Leads(AtWork(job, Releasing(job, Some(again)), [], errors, n), Release(n, true), AtWork(job, Pushing(job, again), [], errors, n))
      && Leads(AtWork(job, Pushing(job, again), [], errors, n), Push(n), PushRight(Resting(errors, n + 1), again))
  {
    var again := job.(task := Task(FailedRun.retry.meta, 1));
    assert [] + [again] == [again] + [];
  }

  lemma AttemptSucceeds(job: Job, entry: Job, n: nat)
    requires !job.modular && Resolves(job, entry)
    ensures Leads(AtWork(job, Working(job), [], [entry], n), Finish(n, GoodRun, 1), AtWork(job, Releasing(job, None), [job], [], n))
    ensures Leads(AtWork(job, Releasing(job, None), [job], [], n), Release(n, true), Resting([], n + 1).(completed := [job]))
  {
    assert [entry][..1] == [entry] && Unresolved([entry], job) == [];
  }

  lemma FirstAttempt(job: Job, again: Job) returns (events: seq<Event>, states: seq<Broker>)
    requires job.task.attempts == 0 && again == job.(task := Task(FailedRun.retry.meta, 1))
    ensures IsHistory(3, events, states) && |events| == 5 && states[0] == PushRight(Resting([job], 0), job)
    ensures states[4] == AtWork(job, Pushing(job, again), [], [job], 0) && states[5] == PushRight(Resting([job], 1), again)
  {
    events := [Pop, TryLock(0), Finish(0, FailedRun, 0), Release(0, true), Push(0)];
    AttemptBegins(job, [job], 0);
    AttemptFails(job, [job], 0);
    states := [PushRight(Resting([job], 0), job), AtWork(job, Popped(job), [], [job], 0),
               AtWork(job, Working(job), [], [job], 0),
               AtWork(job, Releasing(job, Some(again)), [], [job], 0), AtWork(job, Pushing(job, again), [], [job], 0),
               PushRight(Resting([job], 1), again)];
    LeadsOn(events, states);
  }

  lemma SecondAttempt(again: Job, entry: Job) returns (events: seq<Event>, states: seq<Broker>)
    requires !again.modular && Resolves(again, entry)
    ensures IsHistory(3, events, states) && |events| == 4 && states[0] == PushRight(Resting([entry], 1), again)
    ensures states[4] == Resting([], 2).(completed := [again])
  {
    events := [Pop, TryLock(1), Finish(1, GoodRun, 1), Release(1, true)];
    AttemptBegins(again, [entry], 1);
    AttemptSucceeds(again, entry, 1);
    states := [PushRight(Resting([entry], 1), again), AtWork(again, Popped(again), [], [entry], 1),
               AtWork(again, Working(again), [], [entry], 1),
               AtWork(again, Releasing(again, None), [again], [], 1), Resting([], 2).(completed := [again])];
    LeadsOn(events, states);
  }

  lemma HistoriesJoin(maxRetries: int, events: seq<Event>, states: seq<Broker>, more: seq<Event>, rest: seq<Broker>)
    requires IsHistory(maxRetries, events, states) && IsHistory(maxRetries, more, rest) && states[|events|] == rest[0]
    ensures IsHistory(maxRetries, events + more, states + rest[1..])
  {
    var (all, joined, n) := (events + more, states + rest[1..], |events|);
    forall i | 0 <= i < |all| ensures Enabled(joined[i], all[i]) && joined[i+1] == Next(joined[i], maxRetries, all[i]) {
      if i < n {
        assert Enabled(states[i], events[i]) && states[i+1] == Next(states[i], maxRetries, events[i]);
      } else {
        assert Enabled(rest[i-n], more[i-n]) && rest[i-n+1] == Next(rest[i-n], maxRetries, more[i-n]);
        assert joined[i] == rest[i-n] && joined[i+1] == rest[i-n+1];
      }
    }
  }

  /** An ordinary failure with an attempt left goes back to the queue it came from; the second attempt succeeds,
      clears the older error entry and is recorded. */
  lemma FailsThenSucceeds(job: Job) returns (events: seq<Event>, states: seq<Broker>)
    requires !job.modular && job.task.attempts == 0
    ensures IsHistory(3, events, states) && |events| == 9
    ensures HeadsQueue(Resting([job], 0), states[0], job) && Idle(states[0])
    ensures var again := job.(task := Task(FailedRun.retry.meta, 1));
      && JoinsQueue(states[4], states[5], again) && Queued(states[4], job.issue) == 0
      && states[9].completed == [again] && states[9].errors == [] && Queued(states[9], job.issue) == 0 && Idle(states[9])
  {
    var again := job.(task := Task(FailedRun.retry.meta, 1));
    events, states := FirstAttempt(job, again);
    var more, rest := SecondAttempt(again, job);
    HistoriesJoin(3, events, states, more, rest);
    events, states := events + more, states + rest[1..];
  }
}

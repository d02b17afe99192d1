/** Whole runs of the backport workflow, and the sequence of runs a task gets through queue retries. */
module BackportRuns {
  import opened Common
  import opened BackportModel
  import opened BackportProofs

  ghost predicate Steps(c: Config, s: State, t: State) { exists a :: Fits(s, a) && t == Next(c, s, a) }

  /** A run from the given task metadata: states in order, each by some answer from the one before. */
  ghost predicate IsRun(c: Config, meta: Meta, world: World, ss: seq<State>) {
    && ss != [] && (exists tree :: ss[0] == Start(c, meta, tree, world))
    && forall i :: 0 <= i < |ss| - 1 ==> Steps(c, ss[i], ss[i+1])
  }

  function Last(ss: seq<State>): State
    requires ss != []
  {
    ss[|ss|-1]
  }

  /** What earlier runs leave behind: checkpoints and merge requests of validated commits only. */
  ghost predicate Sane(c: Config, meta: Meta, world: World) {
    && (meta.checkpoint.Some? ==> meta.checkpoint.value in world.validated)
    && (!c.modular ==> HeadsValidated(world))
  }

  lemma {:induction false} RunInv(c: Config, meta: Meta, world: World, ss: seq<State>, i: nat)
    requires IsRun(c, meta, world, ss) && Sane(c, meta, world) && i < |ss|
    ensures Inv(c, ss[i])
  {
    if i == 0 {
      var tree :| ss[0] == Start(c, meta, tree, world);
    } else {
      RunInv(c, meta, world, ss, i - 1);
      assert Steps(c, ss[i-1], ss[i-1+1]);
      var a :| Fits(ss[i-1], a) && ss[i] == Next(c, ss[i-1], a);
      StepKeeps(c, ss[i-1], a);
    }
  }

  // ---------------------------------------------------------------- a bound on the length of a run

  function Flags(s: State): nat { One(!s.retry.disabled) * 2 + One(!s.retry.cleanupRetried) }

  /** A number with one more digit. */
  function Place(x: nat, base: nat, digit: nat): nat { x * base + digit }

  /** The measure as one number: its digits, most significant first. */
  function Fuel(c: Config, s: State): nat {
    var outer := Place(Flags(s), Max(0, c.maxBuild) + 1, Max(0, s.count.attemptsRemaining));
    Place(Place(outer, 16, Rank(s)), InnerBase(c), Inner(c, s))
  }

  function InnerBase(c: Config): nat { Max(0, c.maxFix) + Max(0, c.maxBuild) + 3 }

  lemma DigitLess(x: nat, x': nat, d: nat, d': nat, base: nat)
    requires d < base && d' < base && (x < x' || (x == x' && d < d'))
    ensures Place(x, base, d) < Place(x', base, d')
  {
    if x < x' {
      assert (x + 1) * base <= x' * base;
    }
  }

  /** Four digits in the bases m, 16 and n: the first that differs decides. */
  lemma DigitsLess(t: (nat, nat, nat, nat), s: (nat, nat, nat, nat), m: nat, n: nat)
    requires t.1 < m && s.1 < m && t.2 < 16 && s.2 < 16 && t.3 < n && s.3 < n
    requires t.0 < s.0 || (t.0 == s.0 && (t.1 < s.1 || (t.1 == s.1 && (t.2 < s.2 || (t.2 == s.2 && t.3 < s.3)))))
    ensures Place(Place(Place(t.0, m, t.1), 16, t.2), n, t.3) < Place(Place(Place(s.0, m, s.1), 16, s.2), n, s.3)
  {
    if t.0 != s.0 || t.1 != s.1 {
      DigitLess(t.0, s.0, t.1, s.1, m);
    }
    var (t1, s1) := (Place(t.0, m, t.1), Place(s.0, m, s.1));
    if t1 != s1 || t.2 != s.2 {
      DigitLess(t1, s1, t.2, s.2, 16);
    }
    DigitLess(Place(t1, 16, t.2), Place(s1, 16, s.2), t.3, s.3, n);
  }

  lemma SmallerFuel(c: Config, t: State, s: State)
    requires Smaller(c, t, s)
    requires t.count.attemptsRemaining <= c.maxBuild && s.count.attemptsRemaining <= c.maxBuild
    requires Inner(c, t) < InnerBase(c) && Inner(c, s) < InnerBase(c)
    ensures Fuel(c, t) < Fuel(c, s)
  {
    DigitsLess((Flags(t), Max(0, t.count.attemptsRemaining), Rank(t), Inner(c, t)),
               (Flags(s), Max(0, s.count.attemptsRemaining), Rank(s), Inner(c, s)),
               Max(0, c.maxBuild) + 1, InnerBase(c));
  }

  lemma InnerBounded(c: Config, s: State)
    requires Inv(c, s)
    ensures Inner(c, s) < InnerBase(c) && s.count.attemptsRemaining <= c.maxBuild
  {
  }

  /** No run is longer than its initial fuel, whatever the answers. */
  lemma {:induction false} RunIsBounded(c: Config, meta: Meta, world: World, ss: seq<State>, i: nat)
    requires IsRun(c, meta, world, ss) && Sane(c, meta, world) && i < |ss|
    ensures i + Fuel(c, ss[i]) <= Fuel(c, ss[0])
  {
    if i > 0 {
      RunIsBounded(c, meta, world, ss, i - 1);
      RunInv(c, meta, world, ss, i - 1);
      RunInv(c, meta, world, ss, i);
      assert Steps(c, ss[i-1], ss[i-1+1]);
      var a :| Fits(ss[i-1], a) && ss[i] == Next(c, ss[i-1], a);
      StepDecreases(c, ss[i-1], a);
      InnerBounded(c, ss[i-1]);
      InnerBounded(c, ss[i]);
      SmallerFuel(c, ss[i], ss[i-1]);
    }
  }

  /** A run stops only at its end: every other state has an answer that fits. */
  lemma NeverStuck(s: State)
    ensures !Terminal(s) <==> exists a :: Fits(s, a)
  {
    if !Terminal(s) {
      var p := Publication(true, false, true, false, true, true);
      var a := match s.step
        case ChangeJiraStatus => Nothing
        case ResumeInheritedPublication => BranchRead(true)
        case ForkAndPrepareDistGit => Raises
        case PrepareNormalBackport => Raises
        case EvaluateInheritSource => Evaluated(Adapted, true, Clean)
        case RunBackportAgent => Raises
        case FixBuildError => UpstreamMissing
        case ValidateInheritedBuild => Raises
        case UpdateRelease => ReleaseBump(true, true)
        case StageChanges => Staged
        case RunLogAgent => Raises
        case CommitInheritedChange => InheritedCommit(true, Clean)
        case PushInheritedChange => InheritedPush(true, false, true)
        case OpenInheritedMr => Opening(p)
        case CommitPushAndOpenMr => CommitAndOpen(true, p)
        case CommitPushAndBuild => Raises
        case SubmitConsolidationJob => Submitted(true)
        case _ => Commented(true);
      assert Fits(s, a);
    }
  }

  // ---------------------------------------------------------------- safety of one run

  /** Build attempts and inheritance evaluations of a run are bounded. */
  lemma TriesAreBounded(c: Config, meta: Meta, world: World, ss: seq<State>, i: nat)
    requires IsRun(c, meta, world, ss) && Sane(c, meta, world) && i < |ss|
    ensures ss[i].count.builds <= Max(1, c.maxBuild) && ss[i].count.evaluations <= 2
  {
    RunInv(c, meta, world, ss, i);
  }

  /** At every commit the tree carries exactly one Release bump over the clone base; the inherited commit and
      the commit that is built are exactly one commit above it. */
  lemma ReleaseBumpedOnce(c: Config, meta: Meta, world: World, ss: seq<State>, i: nat)
    requires IsRun(c, meta, world, ss) && Sane(c, meta, world) && i + 1 < |ss|
    ensures ss[i].step in {CommitInheritedChange, CommitPushAndOpenMr, CommitPushAndBuild} ==> ss[i].tree.bumps == 1
    ensures ss[i].step in {CommitInheritedChange, CommitPushAndBuild} && ss[i+1].world.next > ss[i].world.next ==>
            ss[i+1].tree == Tree(ss[i].tree.base, ss[i].world.next, 1, 1)
  {
    RunInv(c, meta, world, ss, i);
    assert Steps(c, ss[i], ss[i+1]);
  }

  /** For non-modular issues every merge request call finds a validated commit at the update branch head. */
  lemma OnlyValidatedIsPublished(c: Config, meta: Meta, world: World, ss: seq<State>, i: nat)
    requires IsRun(c, meta, world, ss) && Sane(c, meta, world) && i < |ss| && !c.modular
    ensures forall o <- ss[i].world.mrHeads :: o.Some? && o.value in ss[i].world.validated
  {
    RunInv(c, meta, world, ss, i);
  }

  /** A run that ends well without publishing anything: the agent reported success without an SRPM. The
      result is still recorded as a success. */
  lemma SuccessWithoutMr(c: Config, meta: Meta, world: World, ss: seq<State>)
    requires IsRun(c, meta, world, ss) && Sane(c, meta, world) && !c.modular && !c.dryRun
    requires Last(ss).step.End? && Last(ss).result.Some? && Last(ss).result.value.success && Last(ss).retry.mode.Full?
    ensures Last(ss).count.mrCalls == 0 <==> !Last(ss).result.value.srpm
  {
    RunInv(c, meta, world, ss, |ss| - 1);
  }

  // ---------------------------------------------------------------- after an inherited push

  predicate PublishingStep(step: Step) {
    step in {ChangeJiraStatus, ResumeInheritedPublication, PushInheritedChange, OpenInheritedMr, SubmitConsolidationJob,
             CommentInJira, End, Crashed}
  }

  /** Publication of commit k is under way, and the task metadata says so. */
  predicate Publishing(c: Config, k: Commit, s: State) {
    && PublishingStep(s.step) && s.retry.checkpoint == Some(k)
    && (s.step in {ChangeJiraStatus, ResumeInheritedPublication} || s.inherit.localCommit == Some(k))
    && (s.step.PushInheritedChange? || (c.queued ==> s.retry.meta.checkpoint == Some(k)))
  }

  function Copies(n: nat, k: Commit): seq<Option<Commit>> { seq(n, i => Some(k)) }

  /** Nothing was cloned, built or evaluated in between, and only merge requests of k were added. */
  ghost predicate OnlyPublished(k: Commit, s: State, t: State) {
    && t.count.builds == s.count.builds && t.count.evaluations == s.count.evaluations && t.tree == s.tree
    && exists n: nat :: t.world.mrHeads == s.world.mrHeads + Copies(n, k)
  }

  lemma OnlyPublishedTrans(k: Commit, s: State, t: State, u: State)
    requires OnlyPublished(k, s, t) && OnlyPublished(k, t, u)
    ensures OnlyPublished(k, s, u)
  {
    var n: nat :| t.world.mrHeads == s.world.mrHeads + Copies(n, k);
    var m: nat :| u.world.mrHeads == t.world.mrHeads + Copies(m, k);
    assert u.world.mrHeads == s.world.mrHeads + Copies(n + m, k);
  }

  lemma PublishingKeeps(c: Config, k: Commit, s: State, a: Answer)
    requires Inv(c, s) && Fits(s, a) && Publishing(c, k, s)
    ensures Publishing(c, k, Next(c, s, a)) && !Next(c, s, a).step.PushInheritedChange?
    ensures OnlyPublished(k, s, Next(c, s, a))
  {
    assert s.world.mrHeads == s.world.mrHeads + Copies(0, k);
    assert s.world.mrHeads + [Some(k)] == s.world.mrHeads + Copies(1, k);
    match s.step
    case ChangeJiraStatus => assert Next(c, s, a) == ChangeStatus(s);
    case ResumeInheritedPublication => assert Next(c, s, a) == Resume(s, a.readOk);
    case PushInheritedChange => assert Next(c, s, a) == PushInherited(c, s, a.accepted, a.raised, a.readOk);
    case OpenInheritedMr => assert Next(c, s, a) == OpenInherited(s, a.publication);
    case SubmitConsolidationJob => assert Next(c, s, a) == Submit(c, s, a.ok);
    case CommentInJira => assert Next(c, s, a) == Comment(c, s, a.ok);
  }

  lemma PublishingRunStep(c: Config, meta: Meta, world: World, ss: seq<State>, k: Commit, i: nat)
    requires IsRun(c, meta, world, ss) && Sane(c, meta, world) && i + 1 < |ss| && Publishing(c, k, ss[i])
    ensures Publishing(c, k, ss[i+1]) && !ss[i+1].step.PushInheritedChange? && OnlyPublished(k, ss[i], ss[i+1])
  {
    RunInv(c, meta, world, ss, i);
    assert Steps(c, ss[i], ss[i+1]);
    var a :| Fits(ss[i], a) && ss[i+1] == Next(c, ss[i], a);
    PublishingKeeps(c, k, ss[i], a);
  }

  /** From the first publishing state on: no clone, no agent, no build; only k is ever published. */
  lemma {:induction false} PublishingToTheEnd(c: Config, meta: Meta, world: World, ss: seq<State>, k: Commit, i: nat, j: nat)
    requires IsRun(c, meta, world, ss) && Sane(c, meta, world) && i <= j < |ss| && Publishing(c, k, ss[i])
    ensures Publishing(c, k, ss[j]) && (j > i ==> !ss[j].step.PushInheritedChange?)
    ensures OnlyPublished(k, ss[i], ss[j])
  {
    if i < j {
      PublishingToTheEnd(c, meta, world, ss, k, i, j - 1);
      PublishingRunStep(c, meta, world, ss, k, j - 1);
      OnlyPublishedTrans(k, ss[i], ss[j-1], ss[j]);
    } else {
      assert ss[i].world.mrHeads == ss[i].world.mrHeads + Copies(0, k);
    }
  }

  // ---------------------------------------------------------------- the runs of one task

  datatype Task = Task(meta: Meta, attempts: nat)

  datatype Fate = Completed | Requeue(task: Task) | ErrorList

  function Retried(task: Task, meta: Meta, maxRetries: int): Fate {
    if task.attempts + 1 < maxRetries then Requeue(Task(meta, task.attempts + 1)) else ErrorList
  }

  /** What the queue worker does with a finished run. */
  function Settle(task: Task, maxRetries: int, s: State): Fate {
    if s.step.Crashed? || s.result.None? then Retried(task, s.retry.meta, maxRetries)
    else if s.result.value.success then Completed
    else match s.retry.mode
      case NoRetry => ErrorList
      case ResumeInheritedMr =>
        if s.retry.checkpoint.None? then ErrorList
        else Retried(task, s.retry.meta.(checkpoint := s.retry.checkpoint), maxRetries)
      case Full => Retried(task, s.retry.meta, maxRetries)
  }

  /** The run crashed, or ended without a result. */
  predicate Unfinished(s: State) { s.step.Crashed? || s.result.None? }

  predicate Succeeded(s: State) { !Unfinished(s) && s.result.value.success }

  /** The next attempt only has to publish the commit that the inherited path already pushed. */
  predicate ResumesPublication(s: State) {
    !Unfinished(s) && s.retry.mode.ResumeInheritedMr? && s.retry.checkpoint.Some?
  }

  /** A task is completed exactly on a success. It is retried exactly if its run failed in a way that allows it
      and an attempt is left; the retry has one attempt more and the metadata of the run, with the checkpoint
      only if all that is left to do is the publication. */
  lemma SettleIs(task: Task, maxRetries: int, s: State)
    ensures var fate := Settle(task, maxRetries, s);
      && (fate.Completed? <==> Succeeded(s))
      && (fate.Requeue? <==> && !Succeeded(s) && task.attempts + 1 < maxRetries
                             && (Unfinished(s) || s.retry.mode.Full? || ResumesPublication(s)))
      && (fate.Requeue? ==> && fate.task.attempts == task.attempts + 1
                            && fate.task.meta.disabled == s.retry.meta.disabled
                            && fate.task.meta.checkpoint == if ResumesPublication(s) then s.retry.checkpoint else s.retry.meta.checkpoint)
  {
  }

  /** Between runs anyone may move the update branch; merge requests and build outcomes stay. */
  ghost predicate Follows(w: World, w': World) { w.validated <= w'.validated && w'.mrHeads == w.mrHeads }

  /** The runs of one task: each but the last was requeued as the next task, or its worker was cancelled. */
  ghost predicate IsLife(c: Config, maxRetries: int, tasks: seq<Task>, worlds: seq<World>, runs: seq<seq<State>>) {
    && c.queued && |tasks| == |worlds| == |runs| > 0
    && (forall i :: 0 <= i < |runs| ==> IsRun(c, tasks[i].meta, worlds[i], runs[i]))
    && (forall i :: 0 <= i < |runs| - 1 ==> NextRun(maxRetries, tasks[i], Last(runs[i]), tasks[i+1], worlds[i+1]))
  }

  /** A cancelled worker's payload goes back as it was popped, wherever the run was. A step that was cut short
      counts as taken if its merge request call got through, and otherwise as not taken. */
  ghost predicate NextRun(maxRetries: int, task: Task, s: State, task': Task, world': World) {
    Follows(s.world, world') && (task' == task || (Terminal(s) && Settle(task, maxRetries, s) == Requeue(task')))
  }

  /** A requeued task has one attempt more. */
  predicate Cancelled(tasks: seq<Task>, i: nat)
    requires i + 1 < |tasks|
  {
    tasks[i+1] == tasks[i]
  }

  function Cancels(tasks: seq<Task>, n: nat): nat
    requires n < |tasks|
  {
    if n == 0 then 0 else Cancels(tasks, n - 1) + One(Cancelled(tasks, n - 1))
  }

  lemma StepValidates(c: Config, s: State, a: Answer)
    requires Fits(s, a)
    ensures s.world.validated <= Next(c, s, a).world.validated
  {
  }

  lemma {:induction false} ValidatedGrows(c: Config, meta: Meta, world: World, ss: seq<State>, i: nat)
    requires IsRun(c, meta, world, ss) && i < |ss|
    ensures world.validated <= ss[i].world.validated
  {
    if i > 0 {
      ValidatedGrows(c, meta, world, ss, i - 1);
      assert Steps(c, ss[i-1], ss[i-1+1]);
      var a :| Fits(ss[i-1], a) && ss[i] == Next(c, ss[i-1], a);
      StepValidates(c, ss[i-1], a);
    }
  }

  lemma {:induction false} LifeIsSane(c: Config, maxRetries: int, tasks: seq<Task>, worlds: seq<World>, runs: seq<seq<State>>, i: nat)
    requires IsLife(c, maxRetries, tasks, worlds, runs) && Sane(c, tasks[0].meta, worlds[0]) && i < |runs|
    ensures Sane(c, tasks[i].meta, worlds[i])
  {
    if i > 0 {
      LifeIsSane(c, maxRetries, tasks, worlds, runs, i - 1);
      var last := |runs[i-1]| - 1;
      RunInv(c, tasks[i-1].meta, worlds[i-1], runs[i-1], last);
      ValidatedGrows(c, tasks[i-1].meta, worlds[i-1], runs[i-1], last);
      assert NextRun(maxRetries, tasks[i-1], Last(runs[i-1]), tasks[i-1+1], worlds[i-1+1]);
    }
  }

  /** Over all runs of a non-modular task, every merge request call finds a validated commit. */
  lemma LifePublishesValidated(c: Config, maxRetries: int, tasks: seq<Task>, worlds: seq<World>, runs: seq<seq<State>>, i: nat, j: nat)
    requires IsLife(c, maxRetries, tasks, worlds, runs) && Sane(c, tasks[0].meta, worlds[0]) && !c.modular
    requires i < |runs| && j < |runs[i]|
    ensures forall o <- runs[i][j].world.mrHeads :: o.Some? && o.value in runs[i][j].world.validated
  {
    LifeIsSane(c, maxRetries, tasks, worlds, runs, i);
    OnlyValidatedIsPublished(c, tasks[i].meta, worlds[i], runs[i], j);
  }

  lemma {:induction false} AttemptsCount(c: Config, maxRetries: int, tasks: seq<Task>, worlds: seq<World>, runs: seq<seq<State>>, i: nat)
    requires IsLife(c, maxRetries, tasks, worlds, runs) && i < |runs|
    ensures tasks[i].attempts + Cancels(tasks, i) == tasks[0].attempts + i
    ensures i > Cancels(tasks, i) ==> tasks[i].attempts < maxRetries
  {
    if i > 0 {
      AttemptsCount(c, maxRetries, tasks, worlds, runs, i - 1);
      assert NextRun(maxRetries, tasks[i-1], Last(runs[i-1]), tasks[i-1+1], worlds[i-1+1]);
    }
  }

  /** A new task runs at most max(1, maxRetries) times, not counting runs whose worker was cancelled. */
  lemma RunsAreBounded(c: Config, maxRetries: int, tasks: seq<Task>, worlds: seq<World>, runs: seq<seq<State>>)
    requires IsLife(c, maxRetries, tasks, worlds, runs)
    ensures |runs| - Cancels(tasks, |tasks| - 1) <= Max(1, maxRetries - tasks[0].attempts)
  {
    AttemptsCount(c, maxRetries, tasks, worlds, runs, |runs| - 1);
  }

  // ---------------------------------------------------------------- no second backport

  /** Once a run that is not cancelled enters the inherited push of k, no state after it, in this run or in any
      later run of the task, clones, runs an agent or builds, and only k is published. */
  lemma {:induction false} NoSecondBackport(c: Config, maxRetries: int, tasks: seq<Task>, worlds: seq<World>, runs: seq<seq<State>>,
                                            i: nat, p: nat, k: Commit, j: nat, q: nat)
    requires IsLife(c, maxRetries, tasks, worlds, runs) && Sane(c, tasks[0].meta, worlds[0])
    requires i < |runs| && p < |runs[i]| && runs[i][p].step.PushInheritedChange? && runs[i][p].inherit.localCommit == Some(k)
    requires i <= j < |runs| && q < |runs[j]| && (i == j ==> p <= q) && (i < j ==> !Cancelled(tasks, i))
    ensures Publishing(c, k, runs[j][q]) && ((j, q) != (i, p) ==> !runs[j][q].step.PushInheritedChange?)
    ensures OnlyPublished(k, if i == j then runs[i][p] else runs[j][0], runs[j][q])
    ensures i < j ==> tasks[j].meta.checkpoint == Some(k)
    decreases j
  {
    LifeIsSane(c, maxRetries, tasks, worlds, runs, j);
    var meta, world := tasks[j].meta, worlds[j];
    if i == j {
      RunInv(c, meta, world, runs[i], p);
      PublishingToTheEnd(c, meta, world, runs[i], k, p, q);
    } else {
      var before := runs[j-1];
      NoSecondBackport(c, maxRetries, tasks, worlds, runs, i, p, k, j - 1, |before| - 1);
      assert NextRun(maxRetries, tasks[j-1], Last(before), tasks[j-1+1], worlds[j-1+1]);
      assert tasks[j].meta.checkpoint == Some(k);
      PublishingToTheEnd(c, meta, world, runs[j], k, 0, q);
    }
  }

  /** A run that pushes began without a checkpoint. */
  lemma PushStartsAfresh(c: Config, meta: Meta, world: World, ss: seq<State>, p: nat)
    requires IsRun(c, meta, world, ss) && Sane(c, meta, world) && p < |ss| && ss[p].step.PushInheritedChange?
    ensures meta.checkpoint.None?
  {
    if meta.checkpoint.Some? {
      PublishingToTheEnd(c, meta, world, ss, meta.checkpoint.value, 0, p);
    }
  }

  lemma FirstStep(c: Config, meta: Meta, world: World, ss: seq<State>)
    requires IsRun(c, meta, world, ss) && |ss| > 1 && meta.checkpoint.None?
    ensures ss[1].step.ForkAndPrepareDistGit?
  {
    assert Steps(c, ss[0], ss[0+1]);
  }

  /** The checkpoint lives in memory until the task is requeued. So all later runs publish k and do nothing else
      if and only if the run that pushed k was not cancelled; if it was, the next run clones first thing. */
  lemma SecondBackportIffCancelled(c: Config, maxRetries: int, tasks: seq<Task>, worlds: seq<World>, runs: seq<seq<State>>,
                                   i: nat, p: nat, k: Commit)
    requires IsLife(c, maxRetries, tasks, worlds, runs) && Sane(c, tasks[0].meta, worlds[0])
    requires i + 1 < |runs| && p < |runs[i]| && runs[i][p].step.PushInheritedChange? && runs[i][p].inherit.localCommit == Some(k)
    requires |runs[i+1]| > 1
    ensures (forall j, q :: i < j < |runs| && 0 <= q < |runs[j]| ==> Publishing(c, k, runs[j][q])) <==> !Cancelled(tasks, i)
    ensures Cancelled(tasks, i) ==> runs[i+1][1].step.ForkAndPrepareDistGit?
  {
    if Cancelled(tasks, i) {
      LifeIsSane(c, maxRetries, tasks, worlds, runs, i);
      PushStartsAfresh(c, tasks[i].meta, worlds[i], runs[i], p);
      FirstStep(c, tasks[i+1].meta, worlds[i+1], runs[i+1]);
      assert !Publishing(c, k, runs[i+1][1]);
    } else {
      forall j, q | i < j < |runs| && 0 <= q < |runs[j]| ensures Publishing(c, k, runs[j][q]) {
        NoSecondBackport(c, maxRetries, tasks, worlds, runs, i, p, k, j, q);
      }
    }
  }

  // ---------------------------------------------------------------- a durable fallback

  /** Giving up inheritance is never taken back, and is noted in the metadata of a queued task. */
  predicate Noted(c: Config, s: State) { c.queued && s.retry.disabled ==> s.retry.meta.disabled }

  lemma InheritStepNotes(c: Config, s: State, a: Answer)
    requires Fits(s, a) && Noted(c, s) && InheritStep(s.step)
    ensures Noted(c, Next(c, s, a)) && (s.retry.disabled ==> Next(c, s, a).retry.disabled)
  {
  }

  lemma OtherStepNotes(c: Config, s: State, a: Answer)
    requires Fits(s, a) && !InheritStep(s.step)
    ensures var (r, t) := (s.retry, Next(c, s, a).retry); t.disabled == r.disabled && t.meta.disabled == r.meta.disabled
  {
  }

  lemma DisabledKeeps(c: Config, s: State, a: Answer)
    requires Fits(s, a) && Noted(c, s)
    ensures Noted(c, Next(c, s, a)) && (s.retry.disabled ==> Next(c, s, a).retry.disabled)
  {
    if InheritStep(s.step) {
      InheritStepNotes(c, s, a);
    } else {
      OtherStepNotes(c, s, a);
    }
  }

  lemma DisabledStep(c: Config, s: State, t: State)
    requires Steps(c, s, t) && Noted(c, s)
    ensures Noted(c, t) && (s.retry.disabled ==> t.retry.disabled)
  {
    var a :| Fits(s, a) && t == Next(c, s, a);
    DisabledKeeps(c, s, a);
  }

  lemma DisabledRunStep(c: Config, meta: Meta, world: World, ss: seq<State>, i: nat)
    requires IsRun(c, meta, world, ss) && i + 1 < |ss| && Noted(c, ss[i])
    ensures Noted(c, ss[i+1]) && (ss[i].retry.disabled ==> ss[i+1].retry.disabled)
  {
    assert Steps(c, ss[i], ss[i+1]);
    DisabledStep(c, ss[i], ss[i+1]);
  }

  predicate Carries(p: State -> bool, ss: seq<State>, i: nat)
    requires i + 1 < |ss|
  {
    p(ss[i]) ==> p(ss[i+1])
  }

  lemma {:induction false} CarriedOn(p: State -> bool, ss: seq<State>, i: nat, j: nat)
    requires i <= j < |ss| && p(ss[i]) && forall k: nat :: k + 1 < |ss| ==> Carries(p, ss, k)
    ensures p(ss[j])
    decreases j
  {
    if i < j {
      CarriedOn(p, ss, i, j - 1);
      assert Carries(p, ss, j - 1);
    }
  }

  lemma AlwaysNoted(c: Config, meta: Meta, world: World, ss: seq<State>, i: nat)
    requires IsRun(c, meta, world, ss) && i < |ss|
    ensures Noted(c, ss[i])
  {
    var p := s => Noted(c, s);
    forall k: nat | k + 1 < |ss| ensures Carries(p, ss, k) {
      if p(ss[k]) {
        DisabledRunStep(c, meta, world, ss, k);
      }
    }
    CarriedOn(p, ss, 0, i);
  }

  lemma DisabledToTheEnd(c: Config, meta: Meta, world: World, ss: seq<State>, i: nat, j: nat)
    requires IsRun(c, meta, world, ss) && i <= j < |ss| && ss[i].retry.disabled
    ensures ss[j].retry.disabled
  {
    AlwaysNoted(c, meta, world, ss, i);
    var p := s => Noted(c, s) && s.retry.disabled;
    forall k: nat | k + 1 < |ss| ensures Carries(p, ss, k) {
      if p(ss[k]) {
        DisabledRunStep(c, meta, world, ss, k);
      }
    }
    CarriedOn(p, ss, i, j);
  }

  lemma DisabledIsNormal(c: Config, s: State)
    requires Inv(c, s) && s.retry.disabled
    ensures !s.step.EvaluateInheritSource?
  {
  }

  /** Once a run that is not cancelled gave up inheritance, neither it nor any later run of the task evaluates a
      source again. */
  lemma {:induction false} FallbackIsDurable(c: Config, maxRetries: int, tasks: seq<Task>, worlds: seq<World>, runs: seq<seq<State>>,
                                             i: nat, p: nat, j: nat, q: nat)
    requires IsLife(c, maxRetries, tasks, worlds, runs) && Sane(c, tasks[0].meta, worlds[0])
    requires i < |runs| && p < |runs[i]| && runs[i][p].retry.disabled
    requires i <= j < |runs| && q < |runs[j]| && (i == j ==> p <= q) && (i < j ==> !Cancelled(tasks, i))
    ensures runs[j][q].retry.disabled && !runs[j][q].step.EvaluateInheritSource?
    ensures i < j ==> tasks[j].meta.disabled
    decreases j
  {
    LifeIsSane(c, maxRetries, tasks, worlds, runs, j);
    RunInv(c, tasks[j].meta, worlds[j], runs[j], q);
    if i < j {
      var before := runs[j-1];
      FallbackIsDurable(c, maxRetries, tasks, worlds, runs, i, p, j - 1, |before| - 1);
      AlwaysNoted(c, tasks[j-1].meta, worlds[j-1], before, |before| - 1);
      assert NextRun(maxRetries, tasks[j-1], Last(before), tasks[j-1+1], worlds[j-1+1]);
    }
    DisabledToTheEnd(c, tasks[j].meta, worlds[j], runs[j], if i == j then p else 0, q);
    DisabledIsNormal(c, runs[j][q]);
  }

  /** The run after the one that gave up begins without inheritance if and only if that one was not cancelled. */
  lemma FallbackIffNotCancelled(c: Config, maxRetries: int, tasks: seq<Task>, worlds: seq<World>, runs: seq<seq<State>>, i: nat, p: nat)
    requires IsLife(c, maxRetries, tasks, worlds, runs) && Sane(c, tasks[0].meta, worlds[0])
    requires i + 1 < |runs| && p < |runs[i]| && runs[i][p].retry.disabled && !tasks[i].meta.disabled
    ensures runs[i+1][0].retry.disabled <==> !Cancelled(tasks, i)
  {
    if !Cancelled(tasks, i) {
      FallbackIsDurable(c, maxRetries, tasks, worlds, runs, i, p, i + 1, 0);
    }
    assert IsRun(c, tasks[i+1].meta, worlds[i+1], runs[i+1]);
  }
}

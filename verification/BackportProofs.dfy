/** What every step of the backport workflow keeps, for every answer it may get, and that every run ends. */
module BackportProofs {
  import opened Common
  import opened BackportModel

  // ---------------------------------------------------------------- the invariant

  predicate Terminal(s: State) { s.step.End? || s.step.Crashed? }

  predicate CleanTree(s: State) { s.tree == Tree(s.tree.base, s.tree.base, 0, 0) }

  /** No publication has begun, and every normal build so far used up one attempt. */
  predicate Fresh(c: Config, s: State) {
    && s.retry.checkpoint.None? && s.retry.meta.checkpoint.None? && s.count.mrCalls == 0
    && s.retry.mode.Full? && s.count.builds == c.maxBuild - s.count.attemptsRemaining
    && (s.count.attemptsRemaining > 0 || s.count.builds == 0)
  }

  /** On the normal path, inheritance can no longer start. */
  predicate Normal(c: Config, s: State) {
    Fresh(c, s) && (s.retry.disabled || !c.candidate) && !s.inherit.change
  }

  /** An adapted inheritance attempt. */
  predicate Inherits(c: Config, s: State) {
    && Fresh(c, s) && c.candidate && s.inherit.candidate && !s.retry.disabled && s.inherit.change
    && s.work.logged && !s.work.releaseUpdated
    && s.result == Some(Result(true, true)) && s.inherit.buildAttempts <= c.maxBuild
    && s.count.evaluations == 1 + One(s.retry.cleanupRetried)
  }

  /** The inherited commit is HEAD, one commit above the base. */
  predicate InheritedHead(s: State) {
    s.tree.bumps == 1 && s.tree.above == 1 && s.inherit.localCommit == Some(s.tree.head)
  }

  predicate AtStep(c: Config, s: State) {
    match s.step
    case ChangeJiraStatus =>
      && s.retry.checkpoint == s.retry.meta.checkpoint && s.count.builds == 0
      && s.count.attemptsRemaining == c.maxBuild && s.count.mrCalls == 0
      && s.count.evaluations == 0 && !s.retry.cleanupRetried && s.retry.mode.Full?
    case ResumeInheritedPublication => s.retry.checkpoint.Some? && s.retry.checkpoint == s.retry.meta.checkpoint && s.count.mrCalls == 0
    case ForkAndPrepareDistGit =>
      Fresh(c, s) && (s.retry.disabled || !c.candidate || s.count.evaluations == One(s.retry.cleanupRetried))
    case EvaluateInheritSource =>
      && Fresh(c, s) && c.candidate && s.inherit.candidate && !s.retry.disabled && s.count.evaluations == One(s.retry.cleanupRetried)
      && CleanTree(s) && !s.work.releaseUpdated && !s.inherit.change
    case PrepareNormalBackport => Normal(c, s) && CleanTree(s) && !s.work.releaseUpdated
    case RunBackportAgent => Normal(c, s) && CleanTree(s) && !s.work.releaseUpdated
    case UpdateRelease => Normal(c, s) && s.tree.bumps == One(s.work.releaseUpdated) && s.result.Some? && s.result.value.success
    case StageChanges =>
      && s.tree.bumps == 1
      && if s.inherit.change then Inherits(c, s) && s.tree.above == 0
         else Normal(c, s) && s.work.releaseUpdated && s.result.Some? && s.result.value.success
    case RunLogAgent => Normal(c, s) && s.tree.bumps == 1 && s.work.releaseUpdated && s.result.Some? && s.result.value.success
    case CommitInheritedChange => Inherits(c, s) && s.tree.bumps == 1 && s.tree.above == 0
    case ValidateInheritedBuild => Inherits(c, s) && InheritedHead(s)
    case PushInheritedChange =>
      && InheritedHead(s) && s.retry.checkpoint == s.inherit.localCommit && s.retry.meta.checkpoint.None? && !c.dryRun
      && s.result == Some(Result(true, true)) && s.count.mrCalls == 0
    case OpenInheritedMr =>
      && s.retry.mode.ResumeInheritedMr? && s.retry.checkpoint.Some?
      && s.retry.checkpoint == s.inherit.localCommit == s.world.branch && s.inherit.pushed && s.count.mrCalls == 0
      && s.result.Some? && s.result.value.success
    case CommitPushAndOpenMr =>
      && Normal(c, s) && s.tree.bumps == 1 && s.work.releaseUpdated && c.modular && s.result.Some? && s.result.value.success
    case CommitPushAndBuild =>
      && Normal(c, s) && s.tree.bumps == 1 && s.work.releaseUpdated && !c.modular && s.result.Some? && s.result.value.success
    case FixBuildError =>
      && Normal(c, s) && s.tree.bumps == 1 && s.work.releaseUpdated && !c.modular && s.result.Some?
      && s.work.usedCherryPick && s.work.fixAttempts < c.maxFix
    case SubmitConsolidationJob => s.result.Some? && (s.result.value.success ==> Published(c, s))
    case CommentInJira => s.result.Some? && (s.result.value.success ==> Published(c, s))
    case End => s.result.Some? && (s.result.value.success ==> Published(c, s))
    case Crashed => true
  }

  /** A success is a merge request call, a dry run, or an agent result without an SRPM. */
  predicate Published(c: Config, s: State)
    requires s.result.Some?
  {
    || c.dryRun
    || (s.count.mrCalls > 0 && (s.result.value.srpm || s.retry.mode.ResumeInheritedMr? || c.modular))
    || (s.count.mrCalls == 0 && !s.result.value.srpm && !c.modular && s.retry.mode.Full?)
  }

  /** Checkpoints name validated commits, and so does the branch at every merge request call. */
  ghost predicate Validated(c: Config, s: State) {
    && (s.retry.checkpoint.Some? ==> s.retry.checkpoint.value in s.world.validated)
    && (s.retry.meta.checkpoint.Some? ==> s.retry.meta.checkpoint.value in s.world.validated)
    && (!c.modular ==> HeadsValidated(s.world))
  }

  ghost predicate HeadsValidated(w: World) { forall o <- w.mrHeads :: o.Some? && o.value in w.validated }

  predicate Bounded(c: Config, s: State) {
    && s.count.attemptsRemaining <= c.maxBuild && s.count.builds <= Max(1, c.maxBuild)
    && s.count.evaluations <= 1 + One(s.retry.cleanupRetried)
  }

  ghost predicate Inv(c: Config, s: State) { AtStep(c, s) && Validated(c, s) && Bounded(c, s) }

  // ---------------------------------------------------------------- each step keeps it

  lemma AbandonKeeps(c: Config, s: State, disableFirst: bool, cleanup: Cleanup)
    requires Fresh(c, s) && !s.retry.disabled && !s.work.releaseUpdated && Validated(c, s) && Bounded(c, s)
    requires s.count.evaluations == 1 + One(s.retry.cleanupRetried)
    ensures Inv(c, Abandon(c, s, disableFirst, cleanup))
  {
    var r := Abandon(c, s, disableFirst, cleanup);
    match cleanup
    case Clean =>
      assert r.step == PrepareNormalBackport;
    case Dirty =>
      assert r.step == ForkAndPrepareDistGit;
    case CleanupRaised =>
      assert r.step == Crashed;
  }

  lemma ForkKeeps(c: Config, s: State, base: Commit)
    requires Inv(c, s) && s.step.ForkAndPrepareDistGit?
    ensures Inv(c, Fork(c, s, base))
  {
    assert Fork(c, s, base).step == EvaluateInheritSource || Fork(c, s, base).step == PrepareNormalBackport;
  }

  lemma RunAgentKeeps(c: Config, s: State, success: bool, srpm: bool, cherryPick: bool, commits: nat)
    requires Inv(c, s) && s.step.RunBackportAgent?
    ensures Inv(c, RunAgent(s, success, srpm, cherryPick, commits))
  {
    assert RunAgent(s, success, srpm, cherryPick, commits).step == if success then UpdateRelease else CommentInJira;
  }

  lemma EvaluateKeeps(c: Config, s: State, end: InheritEnd, bumped: bool, cleanup: Cleanup)
    requires Inv(c, s) && s.step.EvaluateInheritSource?
    ensures Inv(c, Evaluate(c, s, end, bumped, cleanup))
  {
    var s1 := s.(count := s.count.(evaluations := s.count.evaluations + 1));
    match end
    case Adapted => assert Evaluate(c, s, end, bumped, cleanup).step == StageChanges;
    case AlreadyInherited => assert Evaluate(c, s, end, bumped, cleanup).step == CommentInJira;
    case PatchRejected => AbandonKeeps(c, s1.(tree := Bump(s.tree, bumped)), true, cleanup);
    case Unusable => AbandonKeeps(c, s1.(tree := Bump(s.tree, bumped)), false, cleanup);
  }

  lemma ReleaseKeeps(c: Config, s: State, ok: bool, bumped: bool)
    requires Inv(c, s) && s.step.UpdateRelease?
    ensures Inv(c, BumpRelease(s, ok, bumped))
  {
    assert BumpRelease(s, ok, bumped).step == if s.work.releaseUpdated || ok then StageChanges else CommentInJira;
  }

  lemma StageKeeps(c: Config, s: State, a: Answer)
    requires Inv(c, s) && Fits(s, a) && s.step.StageChanges?
    ensures Inv(c, Stage(c, s, a))
  {
    match a
    case StageRejected(cleanup) => AbandonKeeps(c, s, true, cleanup);
    case StageFailed => assert Stage(c, s, a).step == CommentInJira;
    case Staged =>
      assert Stage(c, s, a).step == if s.inherit.change then CommitInheritedChange else if !s.work.logged then RunLogAgent
                                    else if c.modular then CommitPushAndOpenMr else CommitPushAndBuild;
  }

  lemma LogKeeps(c: Config, s: State)
    requires Inv(c, s) && s.step.RunLogAgent?
    ensures Inv(c, s.(work := s.work.(logged := true), step := StageChanges))
  {
  }

  lemma CommitInheritedKeeps(c: Config, s: State, ok: bool, cleanup: Cleanup)
    requires Inv(c, s) && s.step.CommitInheritedChange?
    ensures Inv(c, CommitInherited(c, s, ok, cleanup))
  {
    if ok {
      assert CommitInherited(c, s, ok, cleanup).step == ValidateInheritedBuild;
    } else {
      AbandonKeeps(c, s, false, cleanup);
    }
  }

  lemma ValidateInheritedKeeps(c: Config, s: State, passed: bool, checkpointOk: bool, cleanup: Cleanup)
    requires Inv(c, s) && s.step.ValidateInheritedBuild?
    ensures Inv(c, ValidateInherited(c, s, passed, checkpointOk, cleanup))
  {
    var r := ValidateInherited(c, s, passed, checkpointOk, cleanup);
    if passed && checkpointOk {
      assert r.step == if c.dryRun then SubmitConsolidationJob else PushInheritedChange;
    } else if passed {
      AbandonKeeps(c, s.(world := Validate(s.world, s.inherit.localCommit.value)), false, cleanup);
    } else if s.inherit.buildAttempts > 1 {
      assert r.step == ValidateInheritedBuild;
    } else {
      AbandonKeeps(c, s.(inherit := s.inherit.(buildAttempts := s.inherit.buildAttempts - 1)), false, cleanup);
    }
  }

  lemma ResumeKeeps(c: Config, s: State, readOk: bool)
    requires Inv(c, s) && s.step.ResumeInheritedPublication?
    ensures Inv(c, Resume(s, readOk))
  {
    assert Resume(s, readOk).step == if readOk && s.world.branch == s.retry.checkpoint then OpenInheritedMr else CommentInJira;
  }

  lemma PushInheritedKeeps(c: Config, s: State, accepted: bool, raised: bool, readOk: bool)
    requires Inv(c, s) && s.step.PushInheritedChange? && (raised || accepted)
    ensures Inv(c, PushInherited(c, s, accepted, raised, readOk))
  {
    var r := PushInherited(c, s, accepted, raised, readOk);
    assert r.step == OpenInheritedMr || r.step == CommentInJira;
  }

  lemma OpenInheritedKeeps(c: Config, s: State, p: Publication)
    requires Inv(c, s) && s.step.OpenInheritedMr? && (p.raised || p.called)
    ensures Inv(c, OpenInherited(s, p))
  {
    assert OpenInherited(s, p).step == SubmitConsolidationJob;
  }

  lemma CommitAndOpenKeeps(c: Config, s: State, committed: bool, p: Publication)
    requires Inv(c, s) && s.step.CommitPushAndOpenMr? && Plausible(p)
    ensures Inv(c, CommitAndOpenMr(c, s, committed, p))
  {
    if !committed || c.dryRun {
      assert CommitAndOpenMr(c, s, committed, p).step == CommentInJira;
    }
  }

  lemma BuildAcceptedKeeps(c: Config, s: State, p: Publication)
    requires Plausible(p) && Validated(c, s) && Bounded(c, s) && s.result.Some? && s.result.value.srpm
    ensures Inv(c, BuildAccepted(c, s, p))
  {
    if c.dryRun {
      assert BuildAccepted(c, s, p).step == SubmitConsolidationJob;
    } else {
      var s1 := s.(work := s.work.(fixAttempts := 0), world := Validate(s.world, s.tree.head));
    }
  }

  lemma BuildRejectedKeeps(c: Config, s: State)
    requires s.count.attemptsRemaining > 0 ==> Normal(c, s) && s.tree.bumps == 1 && s.work.releaseUpdated && !c.modular
    requires s.result.Some? && Validated(c, s) && Bounded(c, s)
    ensures Inv(c, BuildRejected(c, s))
  {
    assert BuildRejected(c, s).step in {CommentInJira, ForkAndPrepareDistGit, FixBuildError};
  }

  lemma NotBuiltKeeps(c: Config, s: State, committed: bool, refOk: bool, end: BuildEnd, p: Publication)
    requires Inv(c, s) && s.step.CommitPushAndBuild? && (!s.result.value.srpm || !committed || !refOk)
    ensures Inv(c, CommitAndBuild(c, s, committed, refOk, end, p))
  {
    assert CommitAndBuild(c, s, committed, refOk, end, p).step == CommentInJira;
  }

  lemma BuildKeeps(c: Config, s: State, committed: bool, refOk: bool, end: BuildEnd, p: Publication)
    requires Inv(c, s) && s.step.CommitPushAndBuild? && Plausible(p)
    ensures Inv(c, CommitAndBuild(c, s, committed, refOk, end, p))
  {
    if !s.result.value.srpm || !committed || !refOk {
      NotBuiltKeeps(c, s, committed, refOk, end, p);
    } else {
      var s1 := NewCommit(s, 1).(count := s.count.(builds := s.count.builds + 1));
      match end
      case Passed => BuildAcceptedKeeps(c, s1, p);
      case TimedOut => BuildAcceptedKeeps(c, s1, p);
      case InfraError => assert Fail(s1, CommentInJira).step == CommentInJira;
      case BuildFailed =>
        BuildRejectedKeeps(c, s1.(count := s1.count.(attemptsRemaining := s.count.attemptsRemaining - 1)));
    }
  }

  lemma FixKeeps(c: Config, s: State, a: Answer)
    requires Inv(c, s) && Fits(s, a) && s.step.FixBuildError?
    ensures Inv(c, FixError(c, s, a))
  {
    match a
    case UpstreamMissing => assert FixError(c, s, a).step == ForkAndPrepareDistGit;
    case FixRaised(_) => assert FixError(c, s, a).step == CommentInJira;
    case FixDone(success, _, _) =>
      assert FixError(c, s, a).step == if success then UpdateRelease
        else if s.work.fixAttempts + 1 < c.maxFix then FixBuildError else CommentInJira;
  }

  lemma SubmitKeeps(c: Config, s: State, ok: bool)
    requires Inv(c, s) && s.step.SubmitConsolidationJob?
    ensures Inv(c, Submit(c, s, ok))
  {
    assert Submit(c, s, ok).step == CommentInJira || Submit(c, s, ok).step == Crashed;
  }

  lemma CommentKeeps(c: Config, s: State, ok: bool)
    requires Inv(c, s) && s.step.CommentInJira?
    ensures Inv(c, Comment(c, s, ok))
  {
    assert Comment(c, s, ok).step == End || Comment(c, s, ok).step == Crashed;
  }

  lemma ChangeStatusKeeps(c: Config, s: State)
    requires Inv(c, s) && s.step.ChangeJiraStatus?
    ensures Inv(c, ChangeStatus(s))
  {
    assert ChangeStatus(s).step == if s.retry.checkpoint.Some? then ResumeInheritedPublication else ForkAndPrepareDistGit;
  }

  lemma PlainStepKeeps(c: Config, s: State, step: Step)
    requires Inv(c, s)
    requires step.Crashed? || (s.step.PrepareNormalBackport? && step.RunBackportAgent?)
    ensures Inv(c, Go(s, step))
  {
  }

  predicate InheritStep(step: Step) {
    step.EvaluateInheritSource? || step.StageChanges? || step.CommitInheritedChange? || step.ValidateInheritedBuild?
  }

  predicate PublishStep(step: Step) {
    || step.ResumeInheritedPublication? || step.PushInheritedChange? || step.OpenInheritedMr?
    || step.CommitPushAndOpenMr? || step.SubmitConsolidationJob? || step.CommentInJira?
  }

  lemma InheritStepKeeps(c: Config, s: State, a: Answer)
    requires Inv(c, s) && Fits(s, a) && !a.Raises? && InheritStep(s.step)
    ensures Inv(c, Next(c, s, a))
  {
    match s.step
    case EvaluateInheritSource => EvaluateKeeps(c, s, a.end, a.bumped, a.cleanup);
    case ValidateInheritedBuild => ValidateInheritedKeeps(c, s, a.passed, a.checkpointOk, a.cleanup);
    case StageChanges => StageKeeps(c, s, a);
    case CommitInheritedChange => CommitInheritedKeeps(c, s, a.ok, a.cleanup);
  }

  lemma PublishStepKeeps(c: Config, s: State, a: Answer)
    requires Inv(c, s) && Fits(s, a) && !a.Raises? && PublishStep(s.step)
    ensures Inv(c, Next(c, s, a))
  {
    match s.step
    case ResumeInheritedPublication => ResumeKeeps(c, s, a.readOk);
    case PushInheritedChange => PushInheritedKeeps(c, s, a.accepted, a.raised, a.readOk);
    case OpenInheritedMr => OpenInheritedKeeps(c, s, a.publication);
    case CommitPushAndOpenMr => CommitAndOpenKeeps(c, s, a.committed, a.publication);
    case SubmitConsolidationJob => SubmitKeeps(c, s, a.ok);
    case CommentInJira => CommentKeeps(c, s, a.ok);
  }

  lemma NormalStepKeeps(c: Config, s: State, a: Answer)
    requires Inv(c, s) && Fits(s, a) && !a.Raises? && !InheritStep(s.step) && !PublishStep(s.step)
    ensures Inv(c, Next(c, s, a))
  {
    match s.step
    case ChangeJiraStatus => ChangeStatusKeeps(c, s);
    case ForkAndPrepareDistGit => ForkKeeps(c, s, a.base);
    case PrepareNormalBackport => PlainStepKeeps(c, s, RunBackportAgent);
    case RunBackportAgent => RunAgentKeeps(c, s, a.success, a.srpm, a.cherryPick, a.commits);
    case FixBuildError => FixKeeps(c, s, a);
    case UpdateRelease => ReleaseKeeps(c, s, a.ok, a.bumped);
    case RunLogAgent => LogKeeps(c, s);
    case CommitPushAndBuild => BuildKeeps(c, s, a.committed, a.refOk, a.built, a.publication);
  }

  /** Every step keeps the invariant, whatever its answer. */
  lemma StepKeeps(c: Config, s: State, a: Answer)
    requires Inv(c, s) && Fits(s, a)
    ensures Inv(c, Next(c, s, a))
  {
    if a.Raises? {
      PlainStepKeeps(c, s, Crashed);
    } else if InheritStep(s.step) {
      InheritStepKeeps(c, s, a);
    } else if PublishStep(s.step) {
      PublishStepKeeps(c, s, a);
    } else {
      NormalStepKeeps(c, s, a);
    }
  }

  // ---------------------------------------------------------------- every run ends

  /** How far the run is from its end when nothing is retried. */
  function Rank(s: State): nat {
    match s.step
    case ChangeJiraStatus => 15
    case ResumeInheritedPublication => 14
    case FixBuildError => 13
    case ForkAndPrepareDistGit => 12
    case EvaluateInheritSource => 11
    case PrepareNormalBackport => 10
    case RunBackportAgent => 9
    case UpdateRelease => 8
    case StageChanges => if s.work.logged then 5 else 7
    case RunLogAgent => 6
    case CommitInheritedChange => 4
    case ValidateInheritedBuild => 3
    case PushInheritedChange => 2
    case CommitPushAndOpenMr => 4
    case CommitPushAndBuild => 4
    case OpenInheritedMr => 1
    case SubmitConsolidationJob => 0
    case CommentInJira => 0
    case End => 0
    case Crashed => 0
  }

  /** Retries within one step, and the order of the last steps. */
  function Inner(c: Config, s: State): nat {
    match s.step
    case FixBuildError => Max(0, c.maxFix - s.work.fixAttempts)
    case ValidateInheritedBuild => Max(0, s.inherit.buildAttempts)
    case SubmitConsolidationJob => 2
    case CommentInJira => 1
    case _ => 0
  }

  predicate Smaller(c: Config, t: State, s: State) {
    var (t1, s1) := (One(!t.retry.disabled), One(!s.retry.disabled));
    var (t2, s2) := (One(!t.retry.cleanupRetried), One(!s.retry.cleanupRetried));
    var (t3, s3) := (Max(0, t.count.attemptsRemaining), Max(0, s.count.attemptsRemaining));
    t1 < s1 || (t1 == s1 && (t2 < s2 || (t2 == s2 && (t3 < s3 || (t3 == s3 &&
      (Rank(t) < Rank(s) || (Rank(t) == Rank(s) && Inner(c, t) < Inner(c, s))))))))
  }

  lemma AttemptDecreases(c: Config, s: State, a: Answer)
    requires Inv(c, s) && Fits(s, a) && !a.Raises? && (s.step.EvaluateInheritSource? || s.step.StageChanges?)
    ensures Smaller(c, Next(c, s, a), s)
  {
  }

  lemma InheritedCommitDecreases(c: Config, s: State, a: Answer)
    requires Inv(c, s) && Fits(s, a) && !a.Raises? && (s.step.CommitInheritedChange? || s.step.ValidateInheritedBuild?)
    ensures Smaller(c, Next(c, s, a), s)
  {
  }

  lemma InheritedPublishDecreases(c: Config, s: State, a: Answer)
    requires Inv(c, s) && Fits(s, a) && !a.Raises?
    requires s.step.ResumeInheritedPublication? || s.step.PushInheritedChange? || s.step.OpenInheritedMr?
    ensures Smaller(c, Next(c, s, a), s)
  {
  }

  lemma LastStepDecreases(c: Config, s: State, a: Answer)
    requires Inv(c, s) && Fits(s, a) && !a.Raises?
    requires s.step.CommitPushAndOpenMr? || s.step.SubmitConsolidationJob? || s.step.CommentInJira?
    ensures Smaller(c, Next(c, s, a), s)
  {
  }

  lemma BuildDecreases(c: Config, s: State, a: Answer)
    requires Inv(c, s) && Fits(s, a) && !a.Raises? && s.step.CommitPushAndBuild?
    ensures Smaller(c, Next(c, s, a), s)
  {
    assert Next(c, s, a) == CommitAndBuild(c, s, a.committed, a.refOk, a.built, a.publication);
  }

  lemma NormalStepDecreases(c: Config, s: State, a: Answer)
    requires Inv(c, s) && Fits(s, a) && !a.Raises? && !InheritStep(s.step) && !PublishStep(s.step)
    requires !s.step.CommitPushAndBuild? && !s.step.FixBuildError?
    ensures Smaller(c, Next(c, s, a), s)
  {
  }

  /** Every step makes progress: inheritance is disabled, or its one cleanup retry used up, or a build
      attempt used up, or the run moves on. */
  lemma StepDecreases(c: Config, s: State, a: Answer)
    requires Inv(c, s) && Fits(s, a)
    ensures Smaller(c, Next(c, s, a), s)
  {
    if a.Raises? {
      assert Next(c, s, a) == Go(s, Crashed);
    } else if s.step.CommitPushAndOpenMr? || s.step.SubmitConsolidationJob? || s.step.CommentInJira? {
      LastStepDecreases(c, s, a);
    } else if PublishStep(s.step) {
      InheritedPublishDecreases(c, s, a);
    } else if s.step.EvaluateInheritSource? || s.step.StageChanges? {
      AttemptDecreases(c, s, a);
    } else if InheritStep(s.step) {
      InheritedCommitDecreases(c, s, a);
    } else if s.step.CommitPushAndBuild? {
      BuildDecreases(c, s, a);
    } else if !s.step.FixBuildError? {
      NormalStepDecreases(c, s, a);
    }
  }

  /** A step that keeps the invariant and makes progress. */
  ghost predicate Proceeds(c: Config, s: State, t: State) { Inv(c, s) ==> Inv(c, t) && Smaller(c, t, s) }

  lemma NextProceeds(c: Config, s: State, a: Answer)
    requires Fits(s, a)
    ensures Proceeds(c, s, Next(c, s, a))
  {
    if Inv(c, s) {
      StepKeeps(c, s, a);
      StepDecreases(c, s, a);
    }
  }
}

/** The workflow object: one method per step, each changing the state's fields as the step does and returning
    the next step. The last clause of a step's contract ties it to the step function over which whole runs are
    reasoned about; the clauses before it say what the step is for. */
module BackportRun {
  import opened Common
  import opened BackportModel
  import opened BackportProofs
  import opened BackportRuns

  /** Inheritance is off and the clone as good as new. */
  predicate GivenUp(s: State) { s.retry.disabled && CleanTree(s) }

  /** HEAD was built, and the build let it pass. */
  predicate Built(s: State, built: BuildEnd) { (built.Passed? || built.TimedOut?) && s.tree.head in s.world.validated }

  /** The failure is noted and the run goes on at step; without a result the code raises. */
  predicate FailedTo(before: Option<Result>, after: Option<Result>, next: Step, step: Step) {
    if before.None? then after.None? && next == Crashed else after == Some(before.value.(success := false)) && next == step
  }

  /** From s to t, an inheritance attempt is given up. A proven cleanup leads to the normal backport on this clone.
      An unproven one leads to a fresh clone, the first time with inheritance still on, unless it was off before. */
  predicate Abandoned(c: Config, s: State, t: State, disableFirst: bool, cleanup: Cleanup) {
    var again := cleanup.Dirty? && !disableFirst && !s.retry.disabled && !s.retry.cleanupRetried;
    && t.step == (match cleanup
                  case Clean => PrepareNormalBackport
                  case Dirty => ForkAndPrepareDistGit
                  case CleanupRaised => Crashed)
    && (t.retry.disabled <==> s.retry.disabled || disableFirst || cleanup.Clean? || (cleanup.Dirty? && !again))
    && (t.retry.cleanupRetried <==> s.retry.cleanupRetried || again) && t.retry.mode == s.retry.mode
    && (t.retry.disabled && !s.retry.disabled ==> t.retry.checkpoint.None?)
    && (t.retry.disabled && !s.retry.disabled ==> t.retry.meta == if c.queued then Meta(true, None) else s.retry.meta)
    && (if cleanup.Clean? then CleanTree(t) && t.tree.base == s.tree.base && t.inherit == NoInherit && t.result.None?
        else t.tree == s.tree && t.inherit == s.inherit && t.result == s.result)
    && t.world == s.world && t.count == s.count && t.mr == s.mr
  }

  /** From s to t, HEAD is pushed and a merge request opened for the branch, as far as the calls get. */
  predicate PublishedFrom(s: State, t: State, p: Publication, step: Step) {
    && t.world.branch == (if p.accepted then Some(t.tree.head) else s.world.branch)
    && t.world.mrHeads == (if p.called then s.world.mrHeads + [t.world.branch] else s.world.mrHeads)
    && t.count.mrCalls == s.count.mrCalls + One(p.called)
    && if p.pushRaised || p.raised then FailedTo(s.result, t.result, t.step, step) && !t.mr.url
       else t.step == step && t.mr == Mr(p.url, p.isNew) && t.result == s.result
  }

  /** From s to t, a build failed: out of attempts the run fails, and so it does out of fix attempts; otherwise a
      cherry-picked backport is fixed and any other one begun again. */
  predicate BuildMissed(c: Config, s: State, t: State) {
    && t.count.attemptsRemaining == s.count.attemptsRemaining - 1 && t.work == s.work
    && if t.count.attemptsRemaining <= 0 || (s.work.usedCherryPick && s.work.fixAttempts >= c.maxFix)
       then FailedTo(s.result, t.result, t.step, CommentInJira)
       else t.result == s.result && t.step == if s.work.usedCherryPick then FixBuildError else ForkAndPrepareDistGit
  }

  class Run {
    const c: Config
    var retry: Retry
    var inherit: Inherit
    var work: Work
    var result: Option<Result>
    var mr: Mr
    var tree: Tree
    var world: World
    var count: Count

    /** The whole state, about to take the given step. */
    function At(step: Step): State
      reads this
    {
      State(step, retry, inherit, work, result, mr, tree, world, count)
    }

    constructor (c: Config, meta: Meta, tree: Tree, world: World)
      ensures this.c == c && At(ChangeJiraStatus) == Start(c, meta, tree, world)
    {
      this.c, this.tree, this.world := c, tree, world;
      retry, inherit := Retry(meta.disabled, false, Full, meta.checkpoint, meta), NoInherit;
      work, result, mr, count := Work(false, 0, false, false), None, NoMr, Count(c.maxBuild, 0, 0, 0);
    }

    // -------------------------------------------------------------- helpers

    /** Note the failure in the result; without a result the code raises. */
    method FailWith(after: Step, ghost step: Step) returns (next: Step)
      modifies this`result
      ensures FailedTo(old(result), result, next, after)
      ensures At(next) == Fail(old(At(step)), after)
    {
      if result.None? {
        return Crashed;
      }
      result := Some(result.value.(success := false));
      next := after;
    }

    method CommitChanges(above: nat)
      modifies this`tree, this`world
      ensures tree == old(tree.(head := world.next, above := above))
      ensures world == old(world.(next := world.next + 1))
    {
      tree := tree.(head := world.next, above := above);
      world := world.(next := world.next + 1);
    }

    method AgentCommitted(commits: nat, ghost step: Step)
      modifies this`tree, this`world
      ensures At(step) == AgentCommits(old(At(step)), commits)
    {
      if commits > 0 {
        CommitChanges(tree.above + commits);
      }
    }

    method DisableYstreamInheritance()
      modifies this`retry
      ensures retry == Disable(c, old(retry))
    {
      retry := retry.(disabled := true, checkpoint := None);
      if c.queued {
        retry := retry.(meta := Meta(true, None));
      }
    }

    /** Reset the clone and forget the attempt; false when the reset could not be proven. */
    method CleanupInheritAttempt(proven: bool, ghost step: Step) returns (clean: bool)
      modifies this`tree, this`inherit, this`result, this`work
      ensures clean == proven
      ensures At(step) == if proven then Cleaned(old(At(step))) else old(At(step))
    {
      if !proven {
        return false;
      }
      tree := Tree(tree.base, tree.base, 0, 0);
      inherit, result := NoInherit, None;
      work := work.(logged := false);
      clean := true;
    }

    method HandleInheritCleanupFailure(ghost step: Step) returns (next: Step)
      modifies this`retry
      ensures At(next) == CleanupFailed(c, old(At(step)))
    {
      if !retry.disabled && !retry.cleanupRetried {
        retry := retry.(cleanupRetried := true);
        return ForkAndPrepareDistGit;
      }
      DisableYstreamInheritance();
      next := ForkAndPrepareDistGit;
    }

    /** A normal backport on this clone needs a proven cleanup; without one there is one retry on a fresh clone. */
    method AbandonInheritance(disableFirst: bool, cleanup: Cleanup, ghost step: Step) returns (next: Step)
      modifies this
      ensures next.PrepareNormalBackport? <==> cleanup.Clean?
      ensures next.PrepareNormalBackport? ==> GivenUp(At(next)) && (c.queued ==> retry.meta.disabled)
      ensures next.ForkAndPrepareDistGit? ==> retry.disabled || (retry.cleanupRetried && !old(retry.cleanupRetried))
      ensures next in {PrepareNormalBackport, ForkAndPrepareDistGit, Crashed} && world == old(world) && count == old(count)
      ensures Abandoned(c, old(At(step)), At(next), disableFirst, cleanup)
      ensures At(next) == Abandon(c, old(At(step)), disableFirst, cleanup)
    {
      if disableFirst {
        DisableYstreamInheritance();
      }
      if cleanup.CleanupRaised? {
        return Crashed;
      }
      var clean := CleanupInheritAttempt(cleanup.Clean?, step);
      if !clean {
        next := HandleInheritCleanupFailure(step);
        return;
      }
      DisableYstreamInheritance();
      next := PrepareNormalBackport;
    }

    method OpenUpdateMergeRequest()
      modifies this`world, this`count
      ensures world == old(world.(mrHeads := world.mrHeads + [world.branch]))
      ensures count == old(count.(mrCalls := count.mrCalls + 1))
    {
      world := world.(mrHeads := world.mrHeads + [world.branch]);
      count := count.(mrCalls := count.mrCalls + 1);
    }

    method PushChanges(accepted: bool)
      modifies this`world
      ensures world == if accepted then old(world.(branch := Some(tree.head))) else old(world)
    {
      if accepted {
        world := world.(branch := Some(tree.head));
      }
    }

    method Publish(p: Publication, after: Step, ghost step: Step) returns (next: Step)
      modifies this
      ensures PublishedFrom(old(At(step)), At(next), p, after)
      ensures At(next) == PushAndOpen(old(At(step)), p, after)
    {
      PushChanges(p.accepted);
      if p.called {
        OpenUpdateMergeRequest();
      }
      if p.pushRaised || p.raised {
        mr := mr.(url := false);
        next := FailWith(after, step);
        return;
      }
      mr := Mr(p.url, p.isNew);
      next := after;
    }

    // -------------------------------------------------------------- steps

    method ChangeJiraStatusStep() returns (next: Step)
      ensures next == if retry.checkpoint.Some? then ResumeInheritedPublication else ForkAndPrepareDistGit
      ensures At(next) == ChangeStatus(At(ChangeJiraStatus))
    {
      next := if retry.checkpoint.Some? then ResumeInheritedPublication else ForkAndPrepareDistGit;
    }

    /** A retry with a checkpoint opens the merge request exactly if the branch still is the checkpoint. */
    method ResumeStep(readOk: bool) returns (next: Step)
      modifies this
      ensures next.OpenInheritedMr? <==> readOk && retry.checkpoint.Some? && world.branch == retry.checkpoint
      ensures next in {OpenInheritedMr, CommentInJira, Crashed} && retry.checkpoint == old(retry.checkpoint)
      ensures tree == old(tree) && world == old(world) && count == old(count)
      ensures next.Crashed? <==> retry.checkpoint.None?
      ensures !next.Crashed? ==> retry == old(retry).(mode := ResumeInheritedMr) && inherit.localCommit == retry.checkpoint && work.logged
      ensures !next.Crashed? ==> result == Some(Result(next.OpenInheritedMr?, false)) && (next.OpenInheritedMr? ==> inherit.pushed)
      ensures At(next) == Resume(old(At(ResumeInheritedPublication)), readOk)
    {
      if retry.checkpoint.None? {
        return Crashed;
      }
      retry := retry.(mode := ResumeInheritedMr);
      inherit := inherit.(localCommit := retry.checkpoint);
      work := work.(logged := true);
      result := Some(Result(true, false));
      if !readOk || world.branch != retry.checkpoint {
        next := FailWith(CommentInJira, ResumeInheritedPublication);
        return;
      }
      inherit := inherit.(pushed := true);
      next := OpenInheritedMr;
    }

    /** A fresh clone; what was given up, what was published and what is left of the budget survives it. */
    method ForkStep(base: Commit) returns (next: Step)
      modifies this
      ensures next.EvaluateInheritSource? <==> c.candidate && !retry.disabled
      ensures CleanTree(At(next)) && result.None? && !work.releaseUpdated && !inherit.change
      ensures retry == old(retry) && world == old(world) && count == old(count)
      ensures next == if c.candidate && !retry.disabled then EvaluateInheritSource else PrepareNormalBackport
      ensures tree.base == base && work.fixAttempts == 0 && !work.usedCherryPick && !work.logged
      ensures inherit == NoInherit.(candidate := next.EvaluateInheritSource?)
      ensures At(next) == Fork(c, old(At(ForkAndPrepareDistGit)), base)
    {
      work, inherit, result := Work(false, 0, false, false), NoInherit, None;
      tree := Tree(base, base, 0, 0);
      if !retry.disabled && c.candidate {
        inherit := inherit.(candidate := true);
        return EvaluateInheritSource;
      }
      next := PrepareNormalBackport;
    }

    /** A normal backport follows on this clone only when it is clean and the fallback is noted. */
    method EvaluateStep(end: InheritEnd, bumped: bool, cleanup: Cleanup) returns (next: Step)
      modifies this
      ensures count == old(count).(evaluations := old(count.evaluations) + One(old(inherit.candidate))) && world == old(world)
      ensures next.PrepareNormalBackport? && old(inherit.candidate) ==> GivenUp(At(next)) && (c.queued ==> retry.meta.disabled)
      ensures next.StageChanges? ==> inherit.change && tree.bumps == old(tree.bumps) + 1 && retry == old(retry)
      ensures !old(inherit.candidate) ==> next.PrepareNormalBackport? && tree == old(tree) && retry == old(retry)
      ensures old(inherit.candidate) && end.Adapted? ==> next.StageChanges? && inherit.buildAttempts == c.maxBuild && work.logged
      ensures old(inherit.candidate) && end.Adapted? ==> inherit.candidate && result == Some(Result(true, true))
      ensures old(inherit.candidate) && end.AlreadyInherited? ==>
        next.CommentInJira? && retry.mode.NoRetry? && result == Some(Result(false, false))
      ensures old(inherit.candidate) && (end.PatchRejected? || end.Unusable?) ==>
        Abandoned(c, old(At(EvaluateInheritSource).(tree := Bump(tree, bumped),
                                                    count := this.count.(evaluations := count.evaluations + 1))),
                  At(next), end.PatchRejected?, cleanup)
      ensures At(next) == Evaluate(c, old(At(EvaluateInheritSource)), end, bumped, cleanup)
    {
      if !inherit.candidate {
        return PrepareNormalBackport;
      }
      count := count.(evaluations := count.evaluations + 1);
      match end {
        case Adapted =>
          tree := Bump(tree, true);
          inherit := inherit.(change := true, buildAttempts := c.maxBuild);
          work := work.(logged := true);
          result := Some(Result(true, true));
          next := StageChanges;
        case AlreadyInherited =>
          retry := retry.(mode := NoRetry);
          result := Some(Result(false, false));
          next := CommentInJira;
        case PatchRejected =>
          tree := Bump(tree, bumped);
          next := AbandonInheritance(true, cleanup, EvaluateInheritSource);
        case Unusable =>
          tree := Bump(tree, bumped);
          next := AbandonInheritance(false, cleanup, EvaluateInheritSource);
      }
    }

    /** The agent commits, but neither bumps nor publishes. */
    method RunAgentStep(success: bool, srpm: bool, cherryPick: bool, commits: nat) returns (next: Step)
      modifies this
      ensures next == (if success then UpdateRelease else CommentInJira) && result == Some(Result(success, srpm))
      ensures tree.bumps == old(tree.bumps) && tree.base == old(tree.base) && tree.above == old(tree.above) + commits
      ensures world.branch == old(world.branch) && world.mrHeads == old(world.mrHeads) && count == old(count)
      ensures work == if success then old(work).(usedCherryPick := cherryPick) else old(work)
      ensures commits > 0 ==> tree.head == old(world.next)
      ensures At(next) == RunAgent(old(At(RunBackportAgent)), success, srpm, cherryPick, commits)
    {
      AgentCommitted(commits, RunBackportAgent);
      result := Some(Result(success, srpm));
      if !success {
        return CommentInJira;
      }
      work := work.(usedCherryPick := cherryPick);
      next := UpdateRelease;
    }

    /** Fixing goes on only while attempts are left, and leaves bump and build budget alone. */
    method FixStep(a: Answer) returns (next: Step)
      requires a.UpstreamMissing? || a.FixRaised? || a.FixDone?
      modifies this
      ensures next.UpdateRelease? || next.FixBuildError? ==> old(work.fixAttempts) < work.fixAttempts <= c.maxFix
      ensures next.FixBuildError? ==> work.fixAttempts < c.maxFix
      ensures tree.bumps == old(tree.bumps) && count == old(count) && world.branch == old(world.branch)
      ensures old(work.fixAttempts) >= c.maxFix ==> FailedTo(old(result), result, next, CommentInJira) && work == old(work)
      ensures old(work.fixAttempts) < c.maxFix && a.UpstreamMissing? ==> next.ForkAndPrepareDistGit? && work == old(work)
      ensures old(work.fixAttempts) < c.maxFix && a.FixRaised? ==> FailedTo(old(result), result, next, CommentInJira)
      ensures old(work.fixAttempts) < c.maxFix && a.FixRaised? ==> work.fixAttempts == old(work.fixAttempts) + One(a.counted)
      ensures old(work.fixAttempts) < c.maxFix && a.FixDone? ==>
        && result == Some(Result(a.success, a.srpm)) && work.fixAttempts == old(work.fixAttempts) + 1
        && tree.above == old(tree.above) + a.commits
        && next == if a.success then UpdateRelease else if work.fixAttempts < c.maxFix then FixBuildError else CommentInJira
      ensures At(next) == FixError(c, old(At(FixBuildError)), a)
    {
      if work.fixAttempts >= c.maxFix {
        next := FailWith(CommentInJira, FixBuildError);
        return;
      }
      match a {
        case UpstreamMissing =>
          next := ForkAndPrepareDistGit;
        case FixRaised(counted) =>
          if counted {
            work := work.(fixAttempts := work.fixAttempts + 1);
          }
          next := FailWith(CommentInJira, FixBuildError);
        case FixDone(success, srpm, commits) =>
          work := work.(fixAttempts := work.fixAttempts + 1);
          AgentCommitted(commits, FixBuildError);
          result := Some(Result(success, srpm));
          if success {
            return UpdateRelease;
          }
          next := if work.fixAttempts < c.maxFix then FixBuildError else CommentInJira;
      }
    }

    /** Whether or not a bump was made on this clone before, exactly one is there when changes are staged. */
    method UpdateReleaseStep(ok: bool, bumped: bool) returns (next: Step)
      modifies this
      ensures next.StageChanges? && old(tree.bumps == One(work.releaseUpdated)) ==> tree.bumps == 1 && work.releaseUpdated
      ensures !next.StageChanges? ==> result.None? || !result.value.success
      ensures world == old(world) && count == old(count)
      ensures old(work.releaseUpdated) ==> next.StageChanges? && tree == old(tree) && result == old(result)
      ensures !old(work.releaseUpdated) && ok ==>
        next.StageChanges? && tree.bumps == old(tree.bumps) + 1 && work.releaseUpdated && result == old(result)
      ensures !old(work.releaseUpdated) && !ok ==> FailedTo(old(result), result, next, CommentInJira) && !work.releaseUpdated
      ensures At(next) == BumpRelease(old(At(UpdateRelease)), ok, bumped)
    {
      if work.releaseUpdated {
        return StageChanges;
      }
      if !ok {
        tree := Bump(tree, bumped);
        next := FailWith(CommentInJira, UpdateRelease);
        return;
      }
      tree := Bump(tree, true);
      work := work.(releaseUpdated := true);
      next := StageChanges;
    }

    /** Only logged work is committed, on the path that the issue is on; a rejected inheritance is given up. */
    method StageStep(a: Answer) returns (next: Step)
      requires a.Staged? || a.StageFailed? || (a.StageRejected? && inherit.change)
      modifies this
      ensures next.CommitInheritedChange? ==> inherit.change
      ensures next.CommitPushAndOpenMr? ==> work.logged && !inherit.change && c.modular
      ensures next.CommitPushAndBuild? ==> work.logged && !inherit.change && !c.modular
      ensures next.PrepareNormalBackport? ==> GivenUp(At(next))
      ensures world == old(world) && count == old(count)
      ensures a.Staged? ==> At(next) == old(At(StageChanges)).(step :=
        if inherit.change then CommitInheritedChange else if !work.logged then RunLogAgent
        else if c.modular then CommitPushAndOpenMr else CommitPushAndBuild)
      ensures a.StageFailed? ==> FailedTo(old(result), result, next, CommentInJira)
      ensures a.StageRejected? ==> Abandoned(c, old(At(StageChanges)), At(next), true, a.cleanup)
      ensures At(next) == Stage(c, old(At(StageChanges)), a)
    {
      if a.StageRejected? {
        next := AbandonInheritance(true, a.cleanup, StageChanges);
        return;
      }
      if a.StageFailed? {
        next := FailWith(CommentInJira, StageChanges);
        return;
      }
      if inherit.change {
        return CommitInheritedChange;
      }
      if work.logged {
        return if c.modular then CommitPushAndOpenMr else CommitPushAndBuild;
      }
      next := RunLogAgent;
    }

    method RunLogStep() returns (next: Step)
      modifies this`work
      ensures next.StageChanges? && work == old(work).(logged := true)
      ensures At(next) == Next(c, old(At(RunLogAgent)), Ready)
    {
      work := work.(logged := true);
      next := StageChanges;
    }

    /** One more commit, remembered and not pushed; or the attempt is given up. */
    method CommitInheritedStep(ok: bool, cleanup: Cleanup) returns (next: Step)
      modifies this
      ensures ok ==> next.ValidateInheritedBuild? && inherit.localCommit == Some(tree.head)
      ensures ok ==> tree.above == old(tree.above) + 1 && tree.bumps == old(tree.bumps)
      ensures next.PrepareNormalBackport? ==> GivenUp(At(next))
      ensures world.branch == old(world.branch) && world.mrHeads == old(world.mrHeads) && count == old(count)
      ensures ok ==> tree.head == old(world.next) && result == old(result) && retry == old(retry)
      ensures !ok ==> Abandoned(c, old(At(CommitInheritedChange)), At(next), false, cleanup)
      ensures At(next) == CommitInherited(c, old(At(CommitInheritedChange)), ok, cleanup)
    {
      if !ok {
        next := AbandonInheritance(false, cleanup, CommitInheritedChange);
        return;
      }
      CommitChanges(tree.above + 1);
      inherit := inherit.(localCommit := Some(tree.head));
      next := ValidateInheritedBuild;
    }

    /** The way to the push, and to a checkpoint, leads through a successful build of the local commit. */
    method ValidateInheritedStep(passed: bool, checkpointOk: bool, cleanup: Cleanup) returns (next: Step)
      modifies this
      ensures next.PushInheritedChange? || next.SubmitConsolidationJob? ==> passed && retry.checkpoint == inherit.localCommit
      ensures retry.checkpoint.Some? && retry.checkpoint != old(retry.checkpoint) ==> passed && retry.checkpoint.value in world.validated
      ensures next.ValidateInheritedBuild? ==> !passed && 0 < inherit.buildAttempts < old(inherit.buildAttempts)
      ensures next.PrepareNormalBackport? ==> GivenUp(At(next))
      ensures world.branch == old(world.branch) && world.mrHeads == old(world.mrHeads) && count == old(count)
      ensures passed ==>
        if checkpointOk && old(inherit.localCommit.Some? && result.Some? && work.logged && inherit.candidate && inherit.change)
        then next == (if c.dryRun then SubmitConsolidationJob else PushInheritedChange)
             && retry.checkpoint == inherit.localCommit == old(inherit.localCommit)
        else Abandoned(c, old(At(ValidateInheritedBuild)).(world := world), At(next), false, cleanup)
      ensures passed && old(inherit.localCommit).Some? ==> old(inherit.localCommit).value in world.validated
      ensures !passed && old(inherit.buildAttempts) > 1 ==>
        && next.ValidateInheritedBuild? && inherit.buildAttempts == old(inherit.buildAttempts) - 1
        && tree == old(tree) && retry == old(retry) && result == old(result)
      ensures !passed && old(inherit.buildAttempts) <= 1 ==>
        Abandoned(c, old(At(ValidateInheritedBuild).(inherit := inherit.(buildAttempts := inherit.buildAttempts - 1))),
                  At(next), false, cleanup)
      ensures At(next) == ValidateInherited(c, old(At(ValidateInheritedBuild)), passed, checkpointOk, cleanup)
    {
      if passed {
        if inherit.localCommit.Some? {
          world := Validate(world, inherit.localCommit.value);
        }
        if !checkpointOk || inherit.localCommit.None? || result.None? || !work.logged || !inherit.candidate || !inherit.change {
          next := AbandonInheritance(false, cleanup, ValidateInheritedBuild);
          return;
        }
        retry := retry.(checkpoint := inherit.localCommit);
        return if c.dryRun then SubmitConsolidationJob else PushInheritedChange;
      }
      inherit := inherit.(buildAttempts := inherit.buildAttempts - 1);
      if inherit.buildAttempts > 0 {
        return ValidateInheritedBuild;
      }
      next := AbandonInheritance(false, cleanup, ValidateInheritedBuild);
    }

    /** However the push ends, the metadata has the checkpoint; a failed push leads on only if the branch is the commit. */
    method PushInheritedStep(accepted: bool, raised: bool, readOk: bool) returns (next: Step)
      requires raised || accepted
      modifies this
      ensures c.queued && old(retry.checkpoint).Some? ==> retry.meta.checkpoint == old(retry.checkpoint)
      ensures next.OpenInheritedMr? && raised ==> readOk && world.branch.Some? && world.branch == inherit.localCommit
      ensures world.branch == old(world.branch) || (accepted && world.branch == Some(tree.head))
      ensures tree == old(tree) && count == old(count) && world.mrHeads == old(world.mrHeads)
      ensures retry.mode.ResumeInheritedMr? && retry.checkpoint == old(retry.checkpoint)
      ensures c.queued && retry.checkpoint.None? ==> next.Crashed? && world == old(world)
      ensures !(c.queued && retry.checkpoint.None?) ==> world.branch == if accepted then Some(tree.head) else old(world.branch)
      ensures !(c.queued && retry.checkpoint.None?) ==>
        if !raised || (readOk && world.branch.Some? && world.branch == inherit.localCommit)
        then next.OpenInheritedMr? && inherit.pushed && result == old(result)
        else FailedTo(old(result), result, next, CommentInJira)
      ensures At(next) == PushInherited(c, old(At(PushInheritedChange)), accepted, raised, readOk)
    {
      retry := retry.(mode := ResumeInheritedMr);
      if c.queued {
        if retry.checkpoint.None? {
          return Crashed;
        }
        retry := retry.(meta := retry.meta.(checkpoint := retry.checkpoint));
      }
      PushChanges(accepted);
      if raised && !(readOk && world.branch.Some? && world.branch == inherit.localCommit) {
        next := FailWith(CommentInJira, PushInheritedChange);
        return;
      }
      inherit := inherit.(pushed := true);
      next := OpenInheritedMr;
    }

    /** At most one merge request call, for the branch as it is; a failure leaves the publication to be resumed. */
    method OpenInheritedStep(p: Publication) returns (next: Step)
      requires p.raised || p.called
      modifies this
      ensures world.mrHeads == old(world.mrHeads) + if p.called then [old(world.branch)] else []
      ensures p.raised ==> retry.mode.ResumeInheritedMr? && (result.None? || !result.value.success)
      ensures world.branch == old(world.branch) && tree == old(tree) && retry.checkpoint == old(retry.checkpoint)
      ensures count.mrCalls == old(count.mrCalls) + One(p.called)
      ensures if p.raised then FailedTo(old(result), result, next, SubmitConsolidationJob)
              else next.SubmitConsolidationJob? && result == old(result)
      ensures !p.raised ==> mr == Mr(p.url, p.isNew) && retry == old(retry)
      ensures At(next) == OpenInherited(old(At(OpenInheritedMr)), p)
    {
      if p.called {
        OpenUpdateMergeRequest();
      }
      if p.raised {
        retry := retry.(mode := ResumeInheritedMr);
        next := FailWith(SubmitConsolidationJob, OpenInheritedMr);
        return;
      }
      mr := Mr(p.url, p.isNew);
      next := SubmitConsolidationJob;
    }

    /** A merge request is opened only for the commit just pushed. */
    method CommitPushAndOpenMrStep(committed: bool, p: Publication) returns (next: Step)
      requires Plausible(p)
      modifies this
      ensures world.mrHeads == old(world.mrHeads) || (committed && !c.dryRun && world.mrHeads == old(world.mrHeads) + [Some(tree.head)])
      ensures world.branch == old(world.branch) || (committed && !c.dryRun && world.branch == Some(tree.head))
      ensures count.builds == old(count.builds) && tree.bumps == old(tree.bumps)
      ensures !committed ==>
        FailedTo(old(result), result, next, if c.modular then CommentInJira else SubmitConsolidationJob) && tree == old(tree)
      ensures committed ==> tree.head == old(world.next) && tree.above == old(tree.above) + 1
      ensures committed && c.dryRun ==> next == (if c.modular then CommentInJira else SubmitConsolidationJob) && result == old(result)
      ensures committed && !c.dryRun ==>
        PublishedFrom(old(At(CommitPushAndOpenMr)), At(next), p, if c.modular then CommentInJira else SubmitConsolidationJob)
      ensures At(next) == CommitAndOpenMr(c, old(At(CommitPushAndOpenMr)), committed, p)
    {
      var after := if c.modular then CommentInJira else SubmitConsolidationJob;
      if !committed {
        mr := mr.(url := false);
        next := FailWith(after, CommitPushAndOpenMr);
        return;
      }
      CommitChanges(tree.above + 1);
      if c.dryRun {
        mr := NoMr;
        return after;
      }
      next := Publish(p, after, CommitPushAndOpenMr);
    }

    /** Branch and merge request change only to a commit whose build was accepted; each retry costs an attempt. */
    method CommitPushAndBuildStep(committed: bool, refOk: bool, built: BuildEnd, p: Publication) returns (next: Step)
      requires Plausible(p)
      modifies this
      ensures world.mrHeads == old(world.mrHeads) || (Built(At(next), built) && world.mrHeads == old(world.mrHeads) + [Some(tree.head)])
      ensures world.branch == old(world.branch) || (Built(At(next), built) && world.branch == Some(tree.head))
      ensures next.ForkAndPrepareDistGit? || next.FixBuildError? ==> 0 < count.attemptsRemaining == old(count.attemptsRemaining) - 1
      ensures count.builds <= old(count.builds) + 1 && tree.bumps == old(tree.bumps)
      ensures old(result.None? || !result.value.srpm) ==>
        next.CommentInJira? && tree == old(tree) && world == old(world) && count == old(count)
      ensures old(result.None?) ==> result == Some(Result(false, false))
      ensures old(result.Some? && !result.value.srpm) ==> result == old(result)
      ensures old(result.Some? && result.value.srpm) && !(committed && refOk) ==>
        FailedTo(old(result), result, next, CommentInJira) && count == old(count)
      ensures old(result.Some? && result.value.srpm) && committed && refOk ==>
        && tree == old(tree).(head := old(world.next), above := 1) && count.builds == old(count.builds) + 1
        && match built
           case InfraError => FailedTo(old(result), result, next, CommentInJira) && count.attemptsRemaining == old(count.attemptsRemaining)
           case BuildFailed => BuildMissed(c, old(At(CommitPushAndBuild)), At(next))
           case _ =>
             && tree.head in world.validated && work.fixAttempts == 0
             && if c.dryRun then next.SubmitConsolidationJob? && result == old(result)
                else PublishedFrom(old(At(CommitPushAndBuild)), At(next), p, SubmitConsolidationJob)
      ensures At(next) == CommitAndBuild(c, old(At(CommitPushAndBuild)), committed, refOk, built, p)
    {
      if result.None? || !result.value.srpm {
        result := if result.Some? then result else Some(Result(false, false));
        return CommentInJira;
      }
      if !committed {
        mr := mr.(url := false);
        next := FailWith(CommentInJira, CommitPushAndBuild);
        return;
      }
      CommitChanges(1);
      if !refOk {
        next := FailWith(CommentInJira, CommitPushAndBuild);
        return;
      }
      count := count.(builds := count.builds + 1);
      if built.Passed? || built.TimedOut? {
        next := AfterGoodBuild(p);
        return;
      }
      if built.InfraError? {
        next := FailWith(CommentInJira, CommitPushAndBuild);
        return;
      }
      next := AfterFailedBuild();
    }

    /** The build of HEAD was allowed to pass. */
    method AfterGoodBuild(p: Publication) returns (next: Step)
      requires Plausible(p)
      modifies this
      ensures world.mrHeads == old(world.mrHeads) || world.mrHeads == old(world.mrHeads) + [Some(tree.head)]
      ensures world.branch == old(world.branch) || world.branch == Some(tree.head)
      ensures tree == old(tree) && count == old(count).(mrCalls := count.mrCalls)
      ensures tree.head in world.validated && work.fixAttempts == 0
      ensures if c.dryRun then next.SubmitConsolidationJob? && result == old(result)
              else PublishedFrom(old(At(CommitPushAndBuild)), At(next), p, SubmitConsolidationJob)
      ensures !next.ForkAndPrepareDistGit? && !next.FixBuildError?
      ensures At(next) == BuildAccepted(c, old(At(CommitPushAndBuild)), p)
    {
      work := work.(fixAttempts := 0);
      world := Validate(world, tree.head);
      if c.dryRun {
        mr := NoMr;
        return SubmitConsolidationJob;
      }
      next := Publish(p, SubmitConsolidationJob, CommitPushAndBuild);
    }

    method AfterFailedBuild() returns (next: Step)
      modifies this
      ensures var failed := old(count.(attemptsRemaining := count.attemptsRemaining - 1));
        At(next) == BuildRejected(c, old(At(CommitPushAndBuild)).(count := failed))
    {
      count := count.(attemptsRemaining := count.attemptsRemaining - 1);
      if count.attemptsRemaining <= 0 {
        next := FailWith(CommentInJira, CommitPushAndBuild);
        return;
      }
      if !work.usedCherryPick {
        return ForkAndPrepareDistGit;
      }
      if work.fixAttempts >= c.maxFix {
        next := FailWith(CommentInJira, CommitPushAndBuild);
        return;
      }
      next := FixBuildError;
    }

    method SubmitStep(ok: bool) returns (next: Step)
      ensures next == if mr.url && mr.isNew && result.Some? && result.value.success && !c.modular && !ok then Crashed else CommentInJira
      ensures At(next) == Submit(c, At(SubmitConsolidationJob), ok)
    {
      if !mr.url || result.None? || !result.value.success || !mr.isNew {
        return CommentInJira;
      }
      next := if c.modular || ok then CommentInJira else Crashed;
    }

    /** A failed comment turns a run into a crash only if nothing was published by inheritance and a retry makes sense. */
    method CommentStep(ok: bool) returns (next: Step)
      ensures next.Crashed? ==> !c.dryRun && (result.None? || (!ok && !inherit.pushed && !retry.mode.NoRetry?))
      ensures next.End? || next.Crashed?
      ensures next.Crashed? <==> !c.dryRun && (result.None? || (!ok && !inherit.pushed && !retry.mode.NoRetry?))
      ensures At(next) == Comment(c, At(CommentInJira), ok)
    {
      if c.dryRun {
        return End;
      }
      if result.None? {
        return Crashed;
      }
      next := if !ok && !inherit.pushed && retry.mode != NoRetry then Crashed else End;
    }

    // -------------------------------------------------------------- the engine

    /** Take one step with the given answer: it keeps the invariant and makes progress. */
    method Take(step: Step, a: Answer) returns (next: Step)
      requires Fits(At(step), a)
      modifies this
      ensures At(next) == Next(c, old(At(step)), a)
      ensures Proceeds(c, old(At(step)), At(next))
    {
      NextProceeds(c, At(step), a);
      if a.Raises? {
        return Crashed;
      }
      match step {
        case ChangeJiraStatus => next := ChangeJiraStatusStep();
        case ResumeInheritedPublication => next := ResumeStep(a.readOk);
        case ForkAndPrepareDistGit => next := ForkStep(a.base);
        case PrepareNormalBackport => next := RunBackportAgent;
        case EvaluateInheritSource => next := EvaluateStep(a.end, a.bumped, a.cleanup);
        case RunBackportAgent => next := RunAgentStep(a.success, a.srpm, a.cherryPick, a.commits);
        case FixBuildError => next := FixStep(a);
        case ValidateInheritedBuild => next := ValidateInheritedStep(a.passed, a.checkpointOk, a.cleanup);
        case UpdateRelease => next := UpdateReleaseStep(a.ok, a.bumped);
        case StageChanges => next := StageStep(a);
        case RunLogAgent => next := RunLogStep();
        case CommitInheritedChange => next := CommitInheritedStep(a.ok, a.cleanup);
        case PushInheritedChange => next := PushInheritedStep(a.accepted, a.raised, a.readOk);
        case OpenInheritedMr => next := OpenInheritedStep(a.publication);
        case CommitPushAndOpenMr => next := CommitPushAndOpenMrStep(a.committed, a.publication);
        case CommitPushAndBuild => next := CommitPushAndBuildStep(a.committed, a.refOk, a.built, a.publication);
        case SubmitConsolidationJob => next := SubmitStep(a.ok);
        case CommentInJira => next := CommentStep(a.ok);
      }
    }

    /** Run to the end, whatever the agents, builds and services answer at each step. */
    method RunWorkflow(answers: (nat, State) -> Answer) returns (final: Step)
      requires forall i, s :: !Terminal(s) ==> Fits(s, answers(i, s))
      requires At(ChangeJiraStatus) == Start(c, retry.meta, tree, world) && Sane(c, retry.meta, world)
      modifies this
      ensures final.End? || final.Crashed?
      ensures Inv(c, At(final))
    {
      final := ChangeJiraStatus;
      var taken: nat := 0;
      while !final.End? && !final.Crashed?
        invariant Inv(c, At(final))
        decreases Fuel(c, At(final))
      {
        var s := At(final);
        var a := answers(taken, s);
        final := Take(final, a);
        InnerBounded(c, s);
        InnerBounded(c, At(final));
        SmallerFuel(c, At(final), s);
        taken := taken + 1;
      }
    }
  }
}

/** The backport workflow: its state, what agents, builds and git may answer, and what each step does. */
module BackportModel {
  import opened Common

  type Commit = nat

  datatype Step =
    | ChangeJiraStatus | ResumeInheritedPublication | ForkAndPrepareDistGit | PrepareNormalBackport
    | EvaluateInheritSource | RunBackportAgent | FixBuildError | ValidateInheritedBuild | UpdateRelease
    | StageChanges | RunLogAgent | CommitInheritedChange | PushInheritedChange | OpenInheritedMr
    | CommitPushAndOpenMr | CommitPushAndBuild | SubmitConsolidationJob | CommentInJira | End | Crashed

  datatype RetryMode = Full | ResumeInheritedMr | NoRetry

  datatype Result = Result(success: bool, srpm: bool)

  /** Fixed for one task: candidate says a Z-stream source exists and the branch and version allow it;
      queued says the task has metadata that survives the run. */
  datatype Config = Config(maxBuild: int, maxFix: int, dryRun: bool, modular: bool, candidate: bool, queued: bool)

  /** The part of the task metadata that steers a retry. */
  datatype Meta = Meta(disabled: bool, checkpoint: Option<Commit>)

  /** The clone: HEAD, how many commits it is above the base, and Release bumps in the working tree. */
  datatype Tree = Tree(base: Commit, head: Commit, above: nat, bumps: nat)

  /** Outside the run: update branch head on the fork, commits whose build step let them pass, and the branch
      head at each merge request call; next is an unused commit id. */
  datatype World = World(branch: Option<Commit>, validated: set<Commit>, mrHeads: seq<Option<Commit>>, next: Commit)

  /** What outlives a clone: fallback flags, the publication checkpoint and the task metadata. */
  datatype Retry = Retry(disabled: bool, cleanupRetried: bool, mode: RetryMode, checkpoint: Option<Commit>, meta: Meta)

  /** The inheritance attempt. */
  datatype Inherit = Inherit(candidate: bool, change: bool, buildAttempts: int, localCommit: Option<Commit>, pushed: bool)

  /** The normal backport's progress on the current clone. */
  datatype Work = Work(usedCherryPick: bool, fixAttempts: nat, releaseUpdated: bool, logged: bool)

  /** How often things happened, and what is left of the build budget. */
  datatype Count = Count(attemptsRemaining: int, builds: nat, evaluations: nat, mrCalls: nat)

  datatype Mr = Mr(url: bool, isNew: bool)

  datatype State = State(step: Step, retry: Retry, inherit: Inherit, work: Work, result: Option<Result>, mr: Mr,
                         tree: Tree, world: World, count: Count)

  // ---------------------------------------------------------------- answers

  datatype Cleanup = Clean | Dirty | CleanupRaised
  datatype InheritEnd = Adapted | AlreadyInherited | PatchRejected | Unusable
  datatype BuildEnd = Passed | TimedOut | InfraError | BuildFailed

  /** One merge request call: accepted says the remote took the push, the rest how the calls returned. */
  datatype Publication = Publication(accepted: bool, pushRaised: bool, called: bool, raised: bool, url: bool, isNew: bool)

  datatype Answer =
    | Nothing
    | BranchRead(readOk: bool)
    | Forked(base: Commit)
    | Ready
    | Evaluated(end: InheritEnd, bumped: bool, cleanup: Cleanup)
    | AgentDone(success: bool, srpm: bool, cherryPick: bool, commits: nat)
    | UpstreamMissing
    | FixRaised(counted: bool)
    | FixDone(success: bool, srpm: bool, commits: nat)
    | InheritedBuild(passed: bool, checkpointOk: bool, cleanup: Cleanup)
    | ReleaseBump(ok: bool, bumped: bool)
    | Staged
    | StageRejected(cleanup: Cleanup)
    | StageFailed
    | InheritedCommit(ok: bool, cleanup: Cleanup)
    | InheritedPush(accepted: bool, raised: bool, readOk: bool)
    | Opening(publication: Publication)
    | CommitAndOpen(committed: bool, publication: Publication)
    | BuildDone(committed: bool, refOk: bool, built: BuildEnd, publication: Publication)
    | Submitted(ok: bool)
    | Commented(ok: bool)
    | Raises

  predicate Plausible(p: Publication) { (p.pushRaised || p.accepted) && (p.raised || p.called) && (p.pushRaised ==> !p.called) }

  /** The answers a step can get. */
  predicate Fits(s: State, a: Answer) {
    match s.step
    case ChangeJiraStatus => a.Nothing?
    case ResumeInheritedPublication => a.BranchRead?
    case ForkAndPrepareDistGit => a.Forked? || a.Raises?
    case PrepareNormalBackport => a.Ready? || a.Raises?
    case EvaluateInheritSource => a.Evaluated?
    case RunBackportAgent => a.AgentDone? || a.Raises?
    case FixBuildError => a.UpstreamMissing? || a.FixRaised? || a.FixDone?
    case ValidateInheritedBuild => a.InheritedBuild? || a.Raises?
    case UpdateRelease => a.ReleaseBump?
    case StageChanges => a.Staged? || a.StageFailed? || (a.StageRejected? && s.inherit.change)
    case RunLogAgent => a.Ready? || a.Raises?
    case CommitInheritedChange => a.InheritedCommit?
    case PushInheritedChange => a.InheritedPush? && (a.raised || a.accepted)
    case OpenInheritedMr => a.Opening? && (a.publication.raised || a.publication.called)
    case CommitPushAndOpenMr => a.CommitAndOpen? && Plausible(a.publication)
    case CommitPushAndBuild => (a.BuildDone? && Plausible(a.publication)) || a.Raises?
    case SubmitConsolidationJob => a.Submitted?
    case CommentInJira => a.Commented?
    case End => false
    case Crashed => false
  }

  // ---------------------------------------------------------------- helpers shared by steps

  function Max(a: int, b: int): int { if a < b then b else a }

  const NoInherit := Inherit(false, false, 0, None, false)
  const NoMr := Mr(false, false)

  function Go(s: State, step: Step): State { s.(step := step) }

  /** Record a failure in the result and go on; the code dereferences the result, so it must exist. */
  function Fail(s: State, step: Step): State {
    if s.result.None? then Go(s, Crashed)
    else s.(result := Some(s.result.value.(success := false)), step := step)
  }

  function NewCommit(s: State, above: nat): State {
    s.(tree := s.tree.(head := s.world.next, above := above), world := s.world.(next := s.world.next + 1))
  }

  /** What an agent leaves: some commits on top of the base, or none. */
  function AgentCommits(s: State, commits: nat): State {
    if commits == 0 then s else NewCommit(s, s.tree.above + commits)
  }

  function Disable(c: Config, r: Retry): Retry {
    r.(disabled := true, checkpoint := None, meta := if c.queued then Meta(true, None) else r.meta)
  }

  function Bump(t: Tree, yes: bool): Tree { if yes then t.(bumps := t.bumps + 1) else t }

  /** A proven cleanup: hard reset to the base, inheritance fields cleared. */
  function Cleaned(s: State): State {
    s.(inherit := NoInherit, result := None, work := s.work.(logged := false), tree := Tree(s.tree.base, s.tree.base, 0, 0))
  }

  /** One fresh-clone retry when the cleanup cannot be proven, then normal backport on a fresh clone. */
  function CleanupFailed(c: Config, s: State): State {
    if !s.retry.disabled && !s.retry.cleanupRetried
    then s.(retry := s.retry.(cleanupRetried := true), step := ForkAndPrepareDistGit)
    else s.(retry := Disable(c, s.retry), step := ForkAndPrepareDistGit)
  }

  /** Give up the inheritance attempt; some paths disable inheritance before they clean up. */
  function Abandon(c: Config, s: State, disableFirst: bool, cleanup: Cleanup): State {
    var s1 := if disableFirst then s.(retry := Disable(c, s.retry)) else s;
    match cleanup
    case Clean => Cleaned(s1).(retry := Disable(c, s1.retry), step := PrepareNormalBackport)
    case Dirty => CleanupFailed(c, s1)
    case CleanupRaised => Go(s1, Crashed)
  }

  function Validate(w: World, commit: Commit): World { w.(validated := w.validated + {commit}) }

  /** Call the merge request tool for whatever the update branch points at. */
  function CallMr(s: State): State {
    s.(world := s.world.(mrHeads := s.world.mrHeads + [s.world.branch]), count := s.count.(mrCalls := s.count.mrCalls + 1))
  }

  function PushHead(s: State, accepted: bool): State {
    if accepted then s.(world := s.world.(branch := Some(s.tree.head))) else s
  }

  /** Push HEAD and open the merge request, both inside one handler. */
  function PushAndOpen(s: State, p: Publication, step: Step): State {
    var s1 := PushHead(s, p.accepted);
    var s2 := if p.called then CallMr(s1) else s1;
    if p.pushRaised || p.raised then Fail(s2.(mr := s.mr.(url := false)), step)
    else s2.(mr := Mr(p.url, p.isNew), step := step)
  }

  // ---------------------------------------------------------------- the steps

  function ChangeStatus(s: State): State {
    Go(s, if s.retry.checkpoint.Some? then ResumeInheritedPublication else ForkAndPrepareDistGit)
  }

  function Resume(s: State, readOk: bool): State {
    if s.retry.checkpoint.None? then Go(s, Crashed)
    else
      var s1 := s.(retry := s.retry.(mode := ResumeInheritedMr), inherit := s.inherit.(localCommit := s.retry.checkpoint),
                   work := s.work.(logged := true), result := Some(Result(true, false)));
      if readOk && s.world.branch == s.retry.checkpoint
      then s1.(inherit := s1.inherit.(pushed := true), step := OpenInheritedMr)
      else Fail(s1, CommentInJira)
  }

  function Fork(c: Config, s: State, base: Commit): State {
    var inherits := !s.retry.disabled && c.candidate;
    s.(work := Work(false, 0, false, false), inherit := NoInherit.(candidate := inherits), result := None,
       tree := Tree(base, base, 0, 0), step := if inherits then EvaluateInheritSource else PrepareNormalBackport)
  }

  function Evaluate(c: Config, s: State, end: InheritEnd, bumped: bool, cleanup: Cleanup): State {
    if !s.inherit.candidate then Go(s, PrepareNormalBackport)
    else
      var s1 := s.(count := s.count.(evaluations := s.count.evaluations + 1));
      match end
      case Adapted =>
        s1.(tree := Bump(s.tree, true), inherit := s.inherit.(change := true, buildAttempts := c.maxBuild),
            work := s.work.(logged := true), result := Some(Result(true, true)), step := StageChanges)
      case AlreadyInherited =>
        s1.(retry := s.retry.(mode := NoRetry), result := Some(Result(false, false)), step := CommentInJira)
      case PatchRejected => Abandon(c, s1.(tree := Bump(s.tree, bumped)), true, cleanup)
      case Unusable => Abandon(c, s1.(tree := Bump(s.tree, bumped)), false, cleanup)
  }

  function RunAgent(s: State, success: bool, srpm: bool, cherryPick: bool, commits: nat): State {
    var s1 := AgentCommits(s, commits).(result := Some(Result(success, srpm)));
    if success then s1.(work := s.work.(usedCherryPick := cherryPick), step := UpdateRelease) else Go(s1, CommentInJira)
  }

  function FixError(c: Config, s: State, a: Answer): State
    requires a.UpstreamMissing? || a.FixRaised? || a.FixDone?
  {
    var n := s.work.fixAttempts;
    if n >= c.maxFix then Fail(s, CommentInJira)
    else match a
      case UpstreamMissing => Go(s, ForkAndPrepareDistGit)
      case FixRaised(counted) => Fail(s.(work := s.work.(fixAttempts := if counted then n + 1 else n)), CommentInJira)
      case FixDone(success, srpm, commits) =>
        AgentCommits(s, commits).(work := s.work.(fixAttempts := n + 1), result := Some(Result(success, srpm)),
          step := if success then UpdateRelease else if n + 1 < c.maxFix then FixBuildError else CommentInJira)
  }

  function BumpRelease(s: State, ok: bool, bumped: bool): State {
    if s.work.releaseUpdated then Go(s, StageChanges)
    else if ok then s.(tree := Bump(s.tree, true), work := s.work.(releaseUpdated := true), step := StageChanges)
    else Fail(s.(tree := Bump(s.tree, bumped)), CommentInJira)
  }

  function Stage(c: Config, s: State, a: Answer): State
    requires a.Staged? || a.StageFailed? || a.StageRejected?
  {
    match a
    case StageRejected(cleanup) => Abandon(c, s, true, cleanup)
    case StageFailed => Fail(s, CommentInJira)
    case Staged =>
      Go(s, if s.inherit.change then CommitInheritedChange
            else if !s.work.logged then RunLogAgent
            else if c.modular then CommitPushAndOpenMr else CommitPushAndBuild)
  }

  function CommitInherited(c: Config, s: State, ok: bool, cleanup: Cleanup): State {
    if ok then
      NewCommit(s, s.tree.above + 1).(inherit := s.inherit.(localCommit := Some(s.world.next)), step := ValidateInheritedBuild)
    else Abandon(c, s, false, cleanup)
  }

  function ValidateInherited(c: Config, s: State, passed: bool, checkpointOk: bool, cleanup: Cleanup): State {
    if passed then
      var s1 := if s.inherit.localCommit.Some? then s.(world := Validate(s.world, s.inherit.localCommit.value)) else s;
      if checkpointOk && s.inherit.localCommit.Some? && s.result.Some? && s.work.logged && s.inherit.candidate && s.inherit.change
      then s1.(retry := s.retry.(checkpoint := s.inherit.localCommit),
               step := if c.dryRun then SubmitConsolidationJob else PushInheritedChange)
      else Abandon(c, s1, false, cleanup)
    else
      var s1 := s.(inherit := s.inherit.(buildAttempts := s.inherit.buildAttempts - 1));
      if s1.inherit.buildAttempts > 0 then s1 else Abandon(c, s1, false, cleanup)
  }

  /** The checkpoint reaches the task metadata before the branch is touched. */
  function PushInherited(c: Config, s: State, accepted: bool, raised: bool, readOk: bool): State {
    var retry := s.retry.(mode := ResumeInheritedMr);
    if s.retry.checkpoint.None? && c.queued then s.(retry := retry, step := Crashed)
    else
      var meta := if c.queued then s.retry.meta.(checkpoint := s.retry.checkpoint) else s.retry.meta;
      var s1 := PushHead(s.(retry := retry.(meta := meta)), accepted);
      if !raised || (readOk && s1.world.branch.Some? && s1.world.branch == s.inherit.localCommit)
      then s1.(inherit := s.inherit.(pushed := true), step := OpenInheritedMr)
      else Fail(s1, CommentInJira)
  }

  function OpenInherited(s: State, p: Publication): State {
    var s1 := if p.called then CallMr(s) else s;
    if p.raised then Fail(s1.(retry := s.retry.(mode := ResumeInheritedMr)), SubmitConsolidationJob)
    else s1.(mr := Mr(p.url, p.isNew), step := SubmitConsolidationJob)
  }

  function CommitAndOpenMr(c: Config, s: State, committed: bool, p: Publication): State {
    var step := if c.modular then CommentInJira else SubmitConsolidationJob;
    if !committed then Fail(s.(mr := s.mr.(url := false)), step)
    else
      var s1 := NewCommit(s, s.tree.above + 1);
      if c.dryRun then s1.(mr := NoMr, step := step) else PushAndOpen(s1, p, step)
  }

  /** The single build step: squash onto the base, commit, build, and publish only if the build lets it. */
  function CommitAndBuild(c: Config, s: State, committed: bool, refOk: bool, end: BuildEnd, p: Publication): State {
    if s.result.None? then s.(result := Some(Result(false, false)), step := CommentInJira)
    else if !s.result.value.srpm then Go(s, CommentInJira)
    else if !committed then Fail(s.(mr := s.mr.(url := false)), CommentInJira)
    else if !refOk then Fail(NewCommit(s, 1), CommentInJira)
    else
      var s1 := NewCommit(s, 1).(count := s.count.(builds := s.count.builds + 1));
      match end
      case Passed => BuildAccepted(c, s1, p)
      case TimedOut => BuildAccepted(c, s1, p)
      case InfraError => Fail(s1, CommentInJira)
      case BuildFailed => BuildRejected(c, s1.(count := s1.count.(attemptsRemaining := s.count.attemptsRemaining - 1)))
  }

  function BuildAccepted(c: Config, s: State, p: Publication): State {
    var s1 := s.(work := s.work.(fixAttempts := 0), world := Validate(s.world, s.tree.head));
    if c.dryRun then s1.(mr := NoMr, step := SubmitConsolidationJob) else PushAndOpen(s1, p, SubmitConsolidationJob)
  }

  function BuildRejected(c: Config, s: State): State {
    if s.count.attemptsRemaining <= 0 then Fail(s, CommentInJira)
    else if !s.work.usedCherryPick then Go(s, ForkAndPrepareDistGit)
    else if s.work.fixAttempts >= c.maxFix then Fail(s, CommentInJira)
    else Go(s, FixBuildError)
  }

  function Submit(c: Config, s: State, ok: bool): State {
    if !s.mr.url || s.result.None? || !s.result.value.success || !s.mr.isNew || c.modular || ok then Go(s, CommentInJira)
    else Go(s, Crashed)
  }

  function Comment(c: Config, s: State, ok: bool): State {
    if c.dryRun then Go(s, End)
    else if s.result.None? then Go(s, Crashed)
    else if !ok && !s.inherit.pushed && s.retry.mode != NoRetry then Go(s, Crashed)
    else Go(s, End)
  }

  function Next(c: Config, s: State, a: Answer): State
    requires Fits(s, a)
  {
    if a.Raises? then Go(s, Crashed)
    else match s.step
      case ChangeJiraStatus => ChangeStatus(s)
      case ResumeInheritedPublication => Resume(s, a.readOk)
      case ForkAndPrepareDistGit => Fork(c, s, a.base)
      case PrepareNormalBackport => Go(s, RunBackportAgent)
      case EvaluateInheritSource => Evaluate(c, s, a.end, a.bumped, a.cleanup)
      case RunBackportAgent => RunAgent(s, a.success, a.srpm, a.cherryPick, a.commits)
      case FixBuildError => FixError(c, s, a)
      case ValidateInheritedBuild => ValidateInherited(c, s, a.passed, a.checkpointOk, a.cleanup)
      case UpdateRelease => BumpRelease(s, a.ok, a.bumped)
      case StageChanges => Stage(c, s, a)
      case RunLogAgent => s.(work := s.work.(logged := true), step := StageChanges)
      case CommitInheritedChange => CommitInherited(c, s, a.ok, a.cleanup)
      case PushInheritedChange => PushInherited(c, s, a.accepted, a.raised, a.readOk)
      case OpenInheritedMr => OpenInherited(s, a.publication)
      case CommitPushAndOpenMr => CommitAndOpenMr(c, s, a.committed, a.publication)
      case CommitPushAndBuild => CommitAndBuild(c, s, a.committed, a.refOk, a.built, a.publication)
      case SubmitConsolidationJob => Submit(c, s, a.ok)
      case CommentInJira => Comment(c, s, a.ok)
  }

  /** A run begins from the task metadata and whatever the outside world is. */
  function Start(c: Config, meta: Meta, tree: Tree, world: World): State {
    State(ChangeJiraStatus, Retry(meta.disabled, false, Full, meta.checkpoint, meta), NoInherit, Work(false, 0, false, false),
          None, NoMr, tree, world, Count(c.maxBuild, 0, 0, 0))
  }
}

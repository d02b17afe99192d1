/** Runs of the backport workflow that show that something can happen: the ways to a merge request, and the ways
    to lose something. */
module BackportExamples {
  import opened Common
  import opened BackportModel
  import opened BackportProofs
  import opened BackportRuns

  const NewWorld := World(None, {}, [], 1)
  const NoTree := Tree(0, 0, 0, 0)
  const NewMeta := Meta(false, None)
  const Good := Publication(true, false, true, false, true, true)

  /** The states of a run by the given answers. */
  ghost predicate Answered(c: Config, meta: Meta, world: World, ss: seq<State>, answers: seq<Answer>) {
    && |ss| == |answers| + 1 && ss[0] == Start(c, meta, NoTree, world)
    && forall i :: 0 <= i < |answers| ==> AnsweredAt(c, ss, answers, i)
  }

  predicate AnsweredAt(c: Config, ss: seq<State>, answers: seq<Answer>, i: nat)
    requires i < |answers| && |ss| == |answers| + 1
  {
    Fits(ss[i], answers[i]) && ss[i+1] == Next(c, ss[i], answers[i])
  }

  lemma AnsweredIsRun(c: Config, meta: Meta, world: World, ss: seq<State>, answers: seq<Answer>)
    requires Answered(c, meta, world, ss, answers)
    ensures IsRun(c, meta, world, ss)
  {
    forall i | 0 <= i < |ss| - 1 ensures Steps(c, ss[i], ss[i+1]) {
      assert AnsweredAt(c, ss, answers, i);
    }
  }

  lemma AnsweredMore(c: Config, meta: Meta, world: World, ss: seq<State>, answers: seq<Answer>, rest: seq<State>, more: seq<Answer>)
    requires Answered(c, meta, world, ss, answers) && |rest| == |more|
    requires forall i :: 0 <= i < |more| ==> AnsweredAt(c, [Last(ss)] + rest, more, i)
    ensures Answered(c, meta, world, ss + rest, answers + more)
  {
    var (all, given, n) := (ss + rest, answers + more, |answers|);
    forall i | 0 <= i < |given| ensures AnsweredAt(c, all, given, i) {
      if i < n {
        assert AnsweredAt(c, ss, answers, i);
      } else {
        var tail := [Last(ss)] + rest;
        assert AnsweredAt(c, tail, more, i - n);
        assert all[i] == tail[i-n] && all[i+1] == tail[i-n+1];
      }
    }
  }

  // ---------------------------------------------------------------- the normal path

  const Plain := Config(1, 1, false, false, false, true)
  const Modular := Config(1, 1, false, true, false, true)
  const Patient := Config(2, 1, false, false, false, true)

  /** At the commit step: one bump, logged, and the agent's result. */
  function ReadyToCommit(c: Config, srpm: bool, cherryPick: bool): State {
    Start(c, NewMeta, NoTree, NewWorld).(
      step := if c.modular then CommitPushAndOpenMr else CommitPushAndBuild,
      result := Some(Result(true, srpm)), tree := Tree(0, 0, 0, 1), work := Work(cherryPick, 0, true, true))
  }

  lemma ToTheAgent(c: Config, srpm: bool, cherryPick: bool) returns (ss: seq<State>, answers: seq<Answer>)
    requires !c.candidate
    ensures Answered(c, NewMeta, NewWorld, ss, answers)
    ensures Last(ss) ==
      ReadyToCommit(c, srpm, cherryPick).(step := UpdateRelease, tree := NoTree, work := Work(cherryPick, 0, false, false))
  {
    answers := [Nothing, Forked(0), Ready, AgentDone(true, srpm, cherryPick, 0)];
    var s0 := Start(c, NewMeta, NoTree, NewWorld);
    var s4 := s0.(step := UpdateRelease, result := Some(Result(true, srpm)), work := Work(cherryPick, 0, false, false));
    ss := [s0, s0.(step := ForkAndPrepareDistGit), s0.(step := PrepareNormalBackport), s0.(step := RunBackportAgent), s4];
  }

  lemma ToTheCommit(c: Config, srpm: bool, cherryPick: bool) returns (ss: seq<State>, answers: seq<Answer>)
    requires !c.candidate
    ensures Answered(c, NewMeta, NewWorld, ss, answers) && Last(ss) == ReadyToCommit(c, srpm, cherryPick)
  {
    ss, answers := ToTheAgent(c, srpm, cherryPick);
    var s5 := Last(ss).(tree := Tree(0, 0, 0, 1), work := Work(cherryPick, 0, true, false), step := StageChanges);
    var s7 := s5.(work := Work(cherryPick, 0, true, true));
    var rest := [s5, s5.(step := RunLogAgent), s7, ReadyToCommit(c, srpm, cherryPick)];
    var more := [ReleaseBump(true, true), Staged, Ready, Staged];
    AnsweredMore(c, NewMeta, NewWorld, ss, answers, rest, more);
    ss, answers := ss + rest, answers + more;
  }

  /** A success that published nothing. */
  lemma SuccessWithoutSrpm() returns (ss: seq<State>)
    ensures IsRun(Plain, NewMeta, NewWorld, ss) && Last(ss).step.End?
    ensures Last(ss).result == Some(Result(true, false)) && Last(ss).count.mrCalls == 0 && Last(ss).retry.mode.Full?
  {
    var answers;
    ss, answers := ToTheCommit(Plain, false, false);
    var s9 := Last(ss).(step := CommentInJira);
    var (rest, more) := ([s9, s9.(step := End)], [BuildDone(true, true, Passed, Good), Commented(true)]);
    AnsweredMore(Plain, NewMeta, NewWorld, ss, answers, rest, more);
    ss := ss + rest;
    AnsweredIsRun(Plain, NewMeta, NewWorld, ss, answers + more);
  }

  /** The remote, after commit k was built and published. */
  function PublishedWorld(k: Commit): World { World(Some(k), {k}, [Some(k)], k + 1) }

  /** The end of the normal path: built, pushed, one merge request, submitted and commented. */
  lemma NormalRunPublishes() returns (ss: seq<State>)
    ensures IsRun(Plain, NewMeta, NewWorld, ss) && Last(ss).step.End? && Last(ss).result == Some(Result(true, true))
    ensures Last(ss).world == PublishedWorld(1) && Last(ss).count.mrCalls == 1 && Last(ss).count.builds == 1
  {
    var answers;
    ss, answers := ToTheCommit(Plain, true, false);
    var done := Last(ss).(tree := Tree(0, 1, 1, 1), world := PublishedWorld(1), count := Count(1, 1, 0, 1),
                           mr := Mr(true, true), step := SubmitConsolidationJob);
    var rest := [done, done.(step := CommentInJira), done.(step := End)];
    var more := [BuildDone(true, true, Passed, Good), Submitted(true), Commented(true)];
    AnsweredMore(Plain, NewMeta, NewWorld, ss, answers, rest, more);
    ss := ss + rest;
    AnsweredIsRun(Plain, NewMeta, NewWorld, ss, answers + more);
  }

  /** The modular path publishes without a build. */
  lemma ModularRunPublishes() returns (ss: seq<State>)
    ensures IsRun(Modular, NewMeta, NewWorld, ss) && Last(ss).step.End? && Last(ss).result == Some(Result(true, true))
    ensures Last(ss).world == PublishedWorld(1).(validated := {}) && Last(ss).count.mrCalls == 1 && Last(ss).count.builds == 0
  {
    var answers;
    ss, answers := ToTheCommit(Modular, true, false);
    var published := Last(ss).(tree := Tree(0, 1, 1, 1), world := PublishedWorld(1).(validated := {}), count := Count(1, 0, 0, 1),
                            mr := Mr(true, true), step := CommentInJira);
    var rest := [published, published.(step := End)];
    var more := [CommitAndOpen(true, Good), Commented(true)];
    AnsweredMore(Modular, NewMeta, NewWorld, ss, answers, rest, more);
    ss := ss + rest;
    AnsweredIsRun(Modular, NewMeta, NewWorld, ss, answers + more);
  }

  lemma ToTheFixedCommit() returns (ss: seq<State>, answers: seq<Answer>)
    ensures Answered(Patient, NewMeta, NewWorld, ss, answers)
    ensures Last(ss) == ReadyToCommit(Patient, true, true).(tree := Tree(0, 2, 2, 1), world := NewWorld.(next := 3),
                                                           work := Work(true, 1, true, true), count := Count(1, 1, 0, 0))
  {
    ss, answers := ToTheCommit(Patient, true, true);
    var failed := Last(ss).(tree := Tree(0, 1, 1, 1), world := NewWorld.(next := 2), count := Count(1, 1, 0, 0), step := FixBuildError);
    var fixed := failed.(tree := Tree(0, 2, 2, 1), world := NewWorld.(next := 3), work := Work(true, 1, true, true), step := UpdateRelease);
    var rest := [failed, fixed, fixed.(step := StageChanges), fixed.(step := CommitPushAndBuild)];
    var more := [BuildDone(true, true, BuildFailed, Good), FixDone(true, true, 1), ReleaseBump(false, false), Staged];
    AnsweredMore(Patient, NewMeta, NewWorld, ss, answers, rest, more);
    ss, answers := ss + rest, answers + more;
  }

  /** A failed build is fixed on the same clone, squashed into one commit, and published. */
  lemma FixedRunPublishes() returns (ss: seq<State>)
    ensures IsRun(Patient, NewMeta, NewWorld, ss) && Last(ss).step.End? && Last(ss).result == Some(Result(true, true))
    ensures Last(ss).world == PublishedWorld(3) && Last(ss).count == Count(1, 2, 0, 1) && Last(ss).tree.above == 1
  {
    var answers;
    ss, answers := ToTheFixedCommit();
    var done := Last(ss).(tree := Tree(0, 3, 1, 1), world := PublishedWorld(3), count := Count(1, 2, 0, 1),
                           work := Work(true, 0, true, true), mr := Mr(true, true), step := SubmitConsolidationJob);
    var rest := [done, done.(step := CommentInJira), done.(step := End)];
    var more := [BuildDone(true, true, TimedOut, Good), Submitted(true), Commented(true)];
    AnsweredMore(Patient, NewMeta, NewWorld, ss, answers, rest, more);
    ss := ss + rest;
    AnsweredIsRun(Patient, NewMeta, NewWorld, ss, answers + more);
  }

  // ---------------------------------------------------------------- the inherited path

  const Inheriting := Config(1, 1, false, false, true, true)

  const AdaptedState := Start(Inheriting, NewMeta, NoTree, NewWorld).(
    step := StageChanges, inherit := Inherit(true, true, 1, None, false), work := Work(false, 0, false, true),
    result := Some(Result(true, true)), tree := Tree(0, 0, 0, 1), count := Count(1, 0, 1, 0))

  /** An inheritance attempt up to its adapted change. */
  lemma AdaptedRun() returns (ss: seq<State>, answers: seq<Answer>)
    ensures Answered(Inheriting, NewMeta, NewWorld, ss, answers) && Last(ss) == AdaptedState
  {
    var s0 := Start(Inheriting, NewMeta, NoTree, NewWorld);
    var s2 := s0.(inherit := NoInherit.(candidate := true), step := EvaluateInheritSource);
    ss := [s0, s0.(step := ForkAndPrepareDistGit), s2, AdaptedState];
    answers := [Nothing, Forked(0), Evaluated(Adapted, true, Clean)];
  }

  const PushedState := AdaptedState.(
    tree := Tree(0, 1, 1, 1), world := World(Some(1), {1}, [], 2), inherit := Inherit(true, true, 1, Some(1), true),
    retry := Retry(false, false, ResumeInheritedMr, Some(1), Meta(false, Some(1))), step := OpenInheritedMr)

  /** And on to its push. */
  lemma PushedRun() returns (ss: seq<State>, answers: seq<Answer>)
    ensures Answered(Inheriting, NewMeta, NewWorld, ss, answers) && Last(ss) == PushedState
  {
    ss, answers := AdaptedRun();
    var s4 := AdaptedState.(step := CommitInheritedChange);
    var s5 := s4.(tree := Tree(0, 1, 1, 1), world := NewWorld.(next := 2), inherit := s4.inherit.(localCommit := Some(1)),
                  step := ValidateInheritedBuild);
    var s6 := s5.(world := World(None, {1}, [], 2), retry := s5.retry.(checkpoint := Some(1)), step := PushInheritedChange);
    assert NewWorld.validated + {1} == {1};
    var rest := [s4, s5, s6, PushedState];
    var more := [Staged, InheritedCommit(true, Clean), InheritedBuild(true, true, Clean), InheritedPush(true, false, true)];
    AnsweredMore(Inheriting, NewMeta, NewWorld, ss, answers, rest, more);
    ss, answers := ss + rest, answers + more;
  }

  /** An inherited commit is built, pushed and gets its merge request. */
  lemma InheritedRunPublishes() returns (ss: seq<State>)
    ensures IsRun(Inheriting, NewMeta, NewWorld, ss) && Last(ss).step.End? && Last(ss).result == Some(Result(true, true))
    ensures Last(ss).world == PublishedWorld(1) && Last(ss).count == Count(1, 0, 1, 1)
  {
    var answers;
    ss, answers := PushedRun();
    var published := PushedState.(
      world := PublishedWorld(1), count := Count(1, 0, 1, 1), mr := Mr(true, true), step := SubmitConsolidationJob);
    var rest := [published, published.(step := CommentInJira), published.(step := End)];
    var more := [Opening(Good), Submitted(true), Commented(true)];
    AnsweredMore(Inheriting, NewMeta, NewWorld, ss, answers, rest, more);
    ss := ss + rest;
    AnsweredIsRun(Inheriting, NewMeta, NewWorld, ss, answers + more);
  }

  /** A retry with a checkpoint opens the merge request that its predecessor did not get to. */
  lemma ResumedRunPublishes() returns (ss: seq<State>)
    ensures IsRun(Inheriting, Meta(false, Some(1)), World(Some(1), {1}, [], 2), ss) && Last(ss).step.End?
    ensures Last(ss).result == Some(Result(true, false)) && Last(ss).world == PublishedWorld(1)
    ensures Last(ss).count == Count(1, 0, 0, 1)
  {
    var (meta, world) := (Meta(false, Some(1)), World(Some(1), {1}, [], 2));
    var s0 := Start(Inheriting, meta, NoTree, world);
    var s2 := s0.(retry := s0.retry.(mode := ResumeInheritedMr), inherit := Inherit(false, false, 0, Some(1), true),
                  work := Work(false, 0, false, true), result := Some(Result(true, false)), step := OpenInheritedMr);
    var s3 := s2.(world := PublishedWorld(1), count := Count(1, 0, 0, 1), mr := Mr(true, true), step := SubmitConsolidationJob);
    ss := [s0, s0.(step := ResumeInheritedPublication), s2, s3, s3.(step := CommentInJira), s3.(step := End)];
    AnsweredIsRun(Inheriting, meta, world, ss, [Nothing, BranchRead(true), Opening(Good), Submitted(true), Commented(true)]);
  }

  // ---------------------------------------------------------------- cancelled runs

  /** The run that a cancelled worker's payload begins again. */
  lemma RestartedRun(world: World) returns (ss: seq<State>)
    ensures IsRun(Inheriting, NewMeta, world, ss) && |ss| == 3
    ensures ss[1].step.ForkAndPrepareDistGit? && ss[2].step.EvaluateInheritSource?
  {
    var s0 := Start(Inheriting, NewMeta, NoTree, world);
    var s1 := s0.(step := ForkAndPrepareDistGit);
    ss := [s0, s1, Next(Inheriting, s1, Forked(0))];
    AnsweredIsRun(Inheriting, NewMeta, world, ss, [Nothing, Forked(0)]);
  }

  lemma LifeOfTwo(first: seq<State>, second: seq<State>) returns (tasks: seq<Task>, worlds: seq<World>, runs: seq<seq<State>>)
    requires IsRun(Inheriting, NewMeta, NewWorld, first) && IsRun(Inheriting, NewMeta, Last(first).world, second)
    ensures IsLife(Inheriting, 2, tasks, worlds, runs) && tasks == [Task(NewMeta, 0), Task(NewMeta, 0)]
    ensures runs == [first, second] && worlds == [NewWorld, Last(first).world]
  {
    tasks, worlds, runs := [Task(NewMeta, 0), Task(NewMeta, 0)], [NewWorld, Last(first).world], [first, second];
    assert NextRun(2, tasks[0], Last(runs[0]), tasks[1], worlds[1]);
  }

  /** A worker that is cancelled after the push: the next run clones and would backport again. */
  lemma CancelledPushRestarts() returns (tasks: seq<Task>, worlds: seq<World>, runs: seq<seq<State>>)
    ensures IsLife(Inheriting, 2, tasks, worlds, runs) && Sane(Inheriting, tasks[0].meta, worlds[0])
    ensures |runs| == 2 && Cancelled(tasks, 0) && Last(runs[0]).inherit.pushed && Last(runs[0]).retry.meta.checkpoint.Some?
    ensures |runs[1]| > 1 && runs[1][1].step.ForkAndPrepareDistGit?
  {
    var first, answers := PushedRun();
    AnsweredIsRun(Inheriting, NewMeta, NewWorld, first, answers);
    var second := RestartedRun(Last(first).world);
    tasks, worlds, runs := LifeOfTwo(first, second);
  }

  lemma GivenUpRun() returns (ss: seq<State>)
    ensures IsRun(Inheriting, NewMeta, NewWorld, ss) && Last(ss).retry.disabled && Last(ss).retry.meta.disabled
  {
    var start := Start(Inheriting, NewMeta, NoTree, NewWorld);
    var s2 := start.(inherit := NoInherit.(candidate := true), step := EvaluateInheritSource);
    var rejected := Evaluated(PatchRejected, false, Clean);
    ss := [start, start.(step := ForkAndPrepareDistGit), s2, Next(Inheriting, s2, rejected)];
    AnsweredIsRun(Inheriting, NewMeta, NewWorld, ss, [Nothing, Forked(0), rejected]);
  }

  /** A worker that is cancelled after inheritance was given up: the next run evaluates the source again. */
  lemma CancelledFallbackRestarts() returns (tasks: seq<Task>, worlds: seq<World>, runs: seq<seq<State>>)
    ensures IsLife(Inheriting, 2, tasks, worlds, runs) && Sane(Inheriting, tasks[0].meta, worlds[0])
    ensures |runs| == 2 && Cancelled(tasks, 0) && Last(runs[0]).retry.disabled && Last(runs[1]).step.EvaluateInheritSource?
  {
    var first := GivenUpRun();
    var second := RestartedRun(Last(first).world);
    tasks, worlds, runs := LifeOfTwo(first, second);
  }
}

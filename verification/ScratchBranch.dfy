/** Updating an existing merge request: the build runs on a throwaway branch, the live branch moves last. */
module ScratchBranch {
  type Commit = nat

  /** How a command ends: Before means it raised without effect, After that it took effect and raised. */
  datatype Fault = Fine | Before | After
  {
    predicate Works() { !Before? }
    predicate Raises() { !Fine? }
  }

  /** The commands of one preparation, in order, then its cleanup. */
  datatype Faults = Faults(revParse: Fault, stage: Fault, commit: Fault, branch: Fault, push: Fault, reset: Fault,
                           cleanupReset: Fault, deleteRemote: Fault, deleteLocal: Fault)
  {
    predicate ReachesCommit() { !revParse.Raises() && !stage.Raises() }
    predicate ReachesBranch() { ReachesCommit() && !commit.Raises() }
    predicate ReachesPush() { ReachesBranch() && !branch.Raises() }
    predicate ReachesReset() { ReachesPush() && !push.Raises() }
    predicate Prepared() { ReachesReset() && !reset.Raises() }
    predicate Committed() { ReachesCommit() && commit.Works() }
    predicate Branched() { ReachesBranch() && branch.Works() }
    predicate Pushed() { ReachesPush() && push.Works() }
    predicate StaysInClone() { Branched() && !(ReachesPush() && deleteLocal.Works()) }
    predicate Restored() { !Committed() || (ReachesReset() && reset.Works()) || (!Prepared() && cleanupReset.Works()) }
  }

  datatype Step = PrepareDistGit | RunAgent | RunBuild | StageChanges | CommitAndPush | CommentInMr | End | Crashed

  datatype BuildEnd = Passed | TimedOut | InfraError | BuildFailed | BuildRaised

  function ScratchName(live: string, hex: string): string { live + "-ymir-konflux-build-" + hex }

  class Checkout {
    const live: string
    /** The checked-out commit, and what staging and committing now would put into a commit. */
    var head: Commit
    var content: nat
    /** Scratch branches of the clone, branches of the fork, the content of every commit. */
    var local: map<string, Commit>
    var fork: map<string, Commit>
    var contents: map<Commit, nat>
    var next: Commit
    var attemptsRemaining: int
    /** Every build that ran: the content it built and how it ended. */
    ghost var builds: seq<(nat, BuildEnd)>

    ghost predicate Valid() reads this {
      next !in contents && (forall c <- contents :: c < next) && live in fork && fork[live] in contents && head in contents
    }

    constructor (live: string, at: Commit, contents: map<Commit, nat>, next: Commit, maxBuild: int)
      requires at in contents && next !in contents && forall c <- contents :: c < next
      ensures Valid() && this.live == live && head == at && fork == map[live := at] && local == map[]
      ensures attemptsRemaining == maxBuild && builds == [] && this.contents == contents
    {
      this.live, head, content, local, fork := live, at, contents[at], map[], map[live := at];
      this.contents, this.next, attemptsRemaining, builds := contents, next, maxBuild, [];
    }

    // -------------------------------------------------------------- commands

    method Commit(f: Fault) returns (raised: bool)
      modifies this`head, this`contents, this`next
      ensures raised == f.Raises()
      ensures if f.Works() then head == old(next) && contents == old(contents[next := content]) && next == old(next) + 1
              else head == old(head) && contents == old(contents) && next == old(next)
    {
      if f.Works() {
        head, contents, next := next, contents[next := content], next + 1;
      }
      raised := f.Raises();
    }

    method Branch(name: string, f: Fault) returns (raised: bool)
      modifies this`local
      ensures raised == f.Raises() && local == if f.Works() then old(local[name := head]) else old(local)
    {
      if f.Works() {
        local := local[name := head];
      }
      raised := f.Raises();
    }

    method Push(name: string, commit: Commit, f: Fault) returns (raised: bool)
      modifies this`fork
      ensures raised == f.Raises() && fork == if f.Works() then old(fork)[name := commit] else old(fork)
    {
      if f.Works() {
        fork := fork[name := commit];
      }
      raised := f.Raises();
    }

    /** A soft reset moves HEAD and keeps the working tree. */
    method Reset(base: Commit, f: Fault) returns (raised: bool)
      modifies this`head
      ensures raised == f.Raises() && head == if f.Works() then base else old(head)
    {
      if f.Works() {
        head := base;
      }
      raised := f.Raises();
    }

    method DeleteRemote(name: string, f: Fault)
      modifies this`fork
      ensures fork == if f.Works() then old(fork) - {name} else old(fork)
    {
      if f.Works() {
        fork := fork - {name};
      }
    }

    method DeleteLocal(name: string, f: Fault)
      modifies this`local
      ensures local == if f.Works() then old(local) - {name} else old(local)
    {
      if f.Works() {
        local := local - {name};
      }
    }

    // -------------------------------------------------------------- the protocol

    /** The commands up to the restored checkout; prepared says they all came through. */
    method BuildRef(base: Commit, scratch: string, f: Faults)
      returns (revision: Commit, branchCreated: bool, pushAttempted: bool, prepared: bool)
      requires Valid() && base == head && !f.revParse.Raises() && scratch !in local && scratch !in fork && scratch != live
      modifies this`head, this`contents, this`next, this`local, this`fork
      ensures Valid() && prepared == f.Prepared() && branchCreated == pushAttempted == f.ReachesPush()
      ensures head == if !f.Committed() || (f.ReachesReset() && f.reset.Works()) then base else old(next)
      ensures contents == if f.Committed() then old(contents[next := content]) else old(contents)
      ensures next == old(next) + if f.Committed() then 1 else 0
      ensures local == if f.Branched() then old(local)[scratch := old(next)] else old(local)
      ensures fork == if f.Pushed() then old(fork)[scratch := old(next)] else old(fork)
      ensures prepared ==> revision == old(next)
    {
      revision, branchCreated, pushAttempted, prepared := base, false, false, false;
      if f.stage.Raises() {
        return;
      }
      var raised := Commit(f.commit);
      if raised {
        return;
      }
      revision := head;
      raised := Branch(scratch, f.branch);
      if raised {
        return;
      }
      branchCreated, pushAttempted := true, true;
      raised := Push(scratch, local[scratch], f.push);
      if raised {
        return;
      }
      raised := Reset(base, f.reset);
      prepared := !raised;
    }

    /** Push a build candidate to a scratch branch and restore the checkout, whatever fails. */
    method PrepareKonfluxMrRef(hex: string, f: Faults) returns (prepared: bool, revision: Commit)
      requires Valid() && ScratchName(live, hex) !in local && ScratchName(live, hex) !in fork
      modifies this`head, this`contents, this`next, this`local, this`fork
      ensures Valid() && prepared == f.Prepared()
      ensures head == if f.Restored() then old(head) else old(next)
      ensures contents == if f.Committed() then old(contents[next := content]) else old(contents)
      ensures next == old(next) + if f.Committed() then 1 else 0
      ensures local == if f.StaysInClone() then old(local)[ScratchName(live, hex) := old(next)] else old(local)
      ensures fork == if f.Pushed() && (prepared || !f.deleteRemote.Works())
                      then old(fork)[ScratchName(live, hex) := old(next)] else old(fork)
      ensures prepared ==> revision == old(next) && contents[revision] == content
    {
      var scratch := ScratchName(live, hex);
      if f.revParse.Raises() {
        return false, head;
      }
      var base := head;
      var branchCreated, pushAttempted;
      revision, branchCreated, pushAttempted, prepared := BuildRef(base, scratch, f);
      if !prepared {
        var raised := Reset(base, f.cleanupReset);
        if pushAttempted {
          DeleteRemote(scratch, f.deleteRemote);
        }
      }
      if branchCreated {
        DeleteLocal(scratch, f.deleteLocal);
      }
      NewNameDeleted(old(local), scratch, old(next));
      NewNameDeleted(old(fork), scratch, old(next));
    }

    /** The build step: Konflux builds the scratch branch, Copr the SRPM that the agent named. The scratch branch
        of a prepared build is deleted whatever the build does. */
    method RunBuildAgent(konflux: bool, hex: string, srpm: nat, f: Faults, end: BuildEnd, finalDelete: Fault)
      returns (step: Step)
      requires Valid() && ScratchName(live, hex) !in local && ScratchName(live, hex) !in fork
      modifies this`head, this`contents, this`next, this`local, this`fork, this`attemptsRemaining, this`builds
      ensures Valid() && fork[live] == old(fork[live]) && (forall c <- old(contents) :: c in contents && contents[c] == old(contents[c]))
      ensures builds == if !konflux || f.Prepared() then old(builds) + [(if konflux then content else srpm, end)] else old(builds)
      ensures step == if konflux && !f.Prepared() then CommentInMr
                      else match end
                        case Passed => StageChanges
                        case TimedOut => StageChanges
                        case InfraError => CommentInMr
                        case BuildFailed => if attemptsRemaining <= 0 then CommentInMr else PrepareDistGit
                        case BuildRaised => Crashed
      ensures attemptsRemaining == old(attemptsRemaining) - if end.BuildFailed? && (!konflux || f.Prepared()) then 1 else 0
      ensures forall name :: name in fork <==> name in old(fork) || (name == ScratchName(live, hex) && konflux && Leaks(f, finalDelete))
      ensures head == if konflux && !f.Restored() then old(next) else old(head)
      ensures local == if konflux && f.StaysInClone() then old(local)[ScratchName(live, hex) := old(next)] else old(local)
      ensures step.StageChanges? ==> head == old(head)
    {
      var scratch := ScratchName(live, hex);
      if konflux {
        var prepared, revision := PrepareKonfluxMrRef(hex, f);
        if !prepared {
          return CommentInMr;
        }
        builds := builds + [(contents[revision], end)];
        DeleteRemote(scratch, finalDelete);
      } else {
        builds := builds + [(srpm, end)];
      }
      match end {
        case Passed => step := StageChanges;
        case TimedOut => step := StageChanges;
        case InfraError => step := CommentInMr;
        case BuildRaised => step := Crashed;
        case BuildFailed =>
          attemptsRemaining := attemptsRemaining - 1;
          step := if attemptsRemaining <= 0 then CommentInMr else PrepareDistGit;
      }
    }

    /** Commit the working tree and push it to the live branch, unless this is a dry run. */
    method CommitAndPushLive(dryRun: bool, commit: Fault, push: Fault) returns (step: Step)
      requires Valid()
      modifies this`head, this`contents, this`next, this`fork
      ensures step == if commit.Raises() || (!dryRun && push.Raises()) then CommentInMr else End
      ensures fork == if !dryRun && !commit.Raises() && push.Works() then old(fork)[live := old(next)] else old(fork)
      ensures Valid() && contents == if commit.Works() then old(contents[next := content]) else old(contents)
    {
      var raised := Commit(commit);
      if raised {
        return CommentInMr;
      }
      if dryRun {
        return End;
      }
      raised := Push(live, head, push);
      step := if raised then CommentInMr else End;
    }

    /** One round: clone, let the agent edit, build; the round ends where the build step says. */
    method Round(konflux: bool, a: Answer) returns (step: Step)
      requires Valid() && ScratchName(live, a.hex) !in fork
      modifies this
      ensures Valid() && fork[live] == old(fork[live]) && contents[fork[live]] == old(contents[fork[live]])
      ensures step in {PrepareDistGit, StageChanges, CommentInMr, End, Crashed}
      ensures EndsAt(konflux, a, old(attemptsRemaining), step)
      ensures builds == if Builds(konflux, a) then old(builds) + [BuildOf(konflux, a)] else old(builds)
      ensures attemptsRemaining == old(attemptsRemaining) - if Builds(konflux, a) && a.end.BuildFailed? then 1 else 0
      ensures step.StageChanges? ==> content == a.edited
      ensures forall c <- old(contents) :: c in contents
      ensures forall name <- fork :: name in old(fork) || LeftIn(live, a, name)
      ensures forall name <- old(fork) :: name in fork
      ensures forall name <- local :: name in old(local) || StaysIn(live, a, name)
    {
      if a.cloneRaised {
        return Crashed;
      }
      head, content, local := fork[live], contents[fork[live]], map[];
      if !a.hasComments {
        return End;
      }
      content := a.edited;
      if !a.agentOk {
        return CommentInMr;
      }
      step := RunBuildAgent(konflux, a.hex, a.srpm, a.faults, a.end, a.finalDelete);
    }

    /** Round number n, with what the rounds so far left behind. */
    method NextRound(konflux: bool, answers: nat -> Answer, n: nat, ghost fork0: map<string, Commit>, ghost local0: map<string, Commit>)
      returns (step: Step)
      requires Valid() && AllFresh(live, answers, fork0) && DistinctHex(answers)
      requires OnlyLeaks(live, answers, n, fork0, fork) && OnlyLocal(live, answers, n, local0, local)
      modifies this
      ensures Valid() && fork[live] == old(fork[live]) && forall c <- old(contents) :: c in contents
      ensures EndsAt(konflux, answers(n), old(attemptsRemaining), step)
      ensures builds == if Builds(konflux, answers(n)) then old(builds) + [BuildOf(konflux, answers(n))] else old(builds)
      ensures attemptsRemaining == old(attemptsRemaining) - if Builds(konflux, answers(n)) && answers(n).end.BuildFailed? then 1 else 0
      ensures step.StageChanges? ==> content == answers(n).edited
      ensures OnlyLeaks(live, answers, n + 1, fork0, fork) && OnlyLocal(live, answers, n + 1, local0, local)
    {
      StillFresh(live, answers, n, fork0, fork);
      step := Round(konflux, answers(n));
      OneMoreRound(live, answers, n, fork0, old(fork), fork);
      OneMoreLocal(live, answers, n, local0, old(local), local);
    }

    /** Rounds until the build step leads somewhere else than to a new clone; used says how many. */
    method Rounds(konflux: bool, answers: nat -> Answer) returns (step: Step, used: nat)
      requires Valid() && builds == []
      requires AllFresh(live, answers, fork)
      requires DistinctHex(answers)
      modifies this
      ensures Valid() && fork[live] == old(fork[live]) && forall c <- old(contents) :: c in contents
      ensures IsLastRound(konflux, answers, old(attemptsRemaining), used)
      ensures step != PrepareDistGit && EndsAt(konflux, answers(used - 1), old(attemptsRemaining) - (used - 1), step)
      ensures AreBuilds(konflux, answers, builds, used)
      ensures step.StageChanges? ==> content == answers(used - 1).edited
      ensures OnlyLeaks(live, answers, used, old(fork), fork) && OnlyLocal(live, answers, used, old(local), local)
    {
      step, used := PrepareDistGit, 0;
      while step == PrepareDistGit
        invariant Valid() && fork[live] == old(fork[live]) && forall c <- old(contents) :: c in contents
        invariant RoundsSoFar(konflux, answers, old(attemptsRemaining), used, step, attemptsRemaining, builds)
        invariant step.StageChanges? ==> used > 0 && content == answers(used - 1).edited
        invariant OnlyLeaks(live, answers, used, old(fork), fork) && OnlyLocal(live, answers, used, old(local), local)
        decreases step == PrepareDistGit, if attemptsRemaining > 0 then attemptsRemaining else 0, if used == 0 then 1 else 0
      {
        ghost var (attempts, before) := (attemptsRemaining, builds);
        step := NextRound(konflux, answers, used, old(fork), old(local));
        RoundCounts(konflux, answers, old(attemptsRemaining), used, attempts, before, step, attemptsRemaining, builds);
        used := used + 1;
      }
    }

    /** The whole workflow, whatever the agent, the builds and the commands do. The live branch moves to what the
        agent made in the last round exactly if that round's build was allowed to pass and nothing after it
        failed, outside a dry run; that build was with Konflux of the very content that is pushed, with Copr of
        the SRPM the agent named. Scratch branches stay behind, on the fork and in the clone, only where deleting them
        failed or creating one took effect and still raised. */
    method RunWorkflow(konflux: bool, dryRun: bool, answers: nat -> Answer) returns (final: Step, ghost rounds: nat)
      requires Valid() && builds == []
      requires AllFresh(live, answers, fork)
      requires DistinctHex(answers)
      modifies this
      ensures Valid() && IsLastRound(konflux, answers, old(attemptsRemaining), rounds)
      ensures if Accepted(konflux, answers(rounds - 1)) && !dryRun && Pushes(answers(rounds))
              then fork[live] !in old(contents) && contents[fork[live]] == answers(rounds - 1).edited
              else fork[live] == old(fork[live])
      ensures AreBuilds(konflux, answers, builds, rounds)
      ensures |builds| <= if old(attemptsRemaining) > 1 then old(attemptsRemaining) else 1
      ensures fork[live] != old(fork[live]) ==> konflux ==> builds[|builds|-1].0 == contents[fork[live]]
      ensures final == if Breaks(konflux, answers(rounds - 1)) || (!dryRun && answers(rounds).commentRaised
                          && Reports(konflux, dryRun, answers(rounds - 1), answers(rounds))) then Crashed else End
      ensures OnlyLeaks(live, answers, rounds, old(fork), fork) && OnlyLocal(live, answers, rounds, old(local), local)
    {
      var used;
      final, used := Rounds(konflux, answers);
      rounds := used;
      assert rounds > 1 ==> TriesAgain(konflux, answers(rounds - 2), old(attemptsRemaining) - (rounds - 2));
      var a := answers(used);
      if final.StageChanges? {
        if a.stageRaised {
          final := CommentInMr;
        } else {
          final := CommitAndPushLive(dryRun, a.commit, a.push);
        }
      }
      if final == CommentInMr {
        final := if a.commentRaised && !dryRun then Crashed else End;
      }
    }
  }

  /** What everything outside does in one round, and in the steps that follow it. */
  datatype Answer = Answer(cloneRaised: bool, hasComments: bool, edited: nat, srpm: nat, agentOk: bool, hex: string, faults: Faults,
                           end: BuildEnd, finalDelete: Fault, stageRaised: bool, commit: Fault, push: Fault, commentRaised: bool)

  // ---------------------------------------------------------------- how a round ends

  /** The round comes to a build. */
  predicate Builds(konflux: bool, a: Answer) {
    !a.cloneRaised && a.hasComments && a.agentOk && (konflux ==> a.faults.Prepared())
  }

  /** Konflux builds what the agent made, Copr the SRPM it named. */
  function BuildOf(konflux: bool, a: Answer): (nat, BuildEnd) { (if konflux then a.edited else a.srpm, a.end) }

  predicate Accepted(konflux: bool, a: Answer) { Builds(konflux, a) && (a.end.Passed? || a.end.TimedOut?) }

  predicate TriesAgain(konflux: bool, a: Answer, attempts: int) { Builds(konflux, a) && a.end.BuildFailed? && attempts > 1 }

  predicate Breaks(konflux: bool, a: Answer) { a.cloneRaised || (Builds(konflux, a) && a.end.BuildRaised?) }

  predicate NothingToDo(a: Answer) { !a.cloneRaised && !a.hasComments }

  predicate EndsAt(konflux: bool, a: Answer, attempts: int, step: Step) {
    && step in {PrepareDistGit, StageChanges, CommentInMr, End, Crashed}
    && (step.StageChanges? <==> Accepted(konflux, a)) && (step.PrepareDistGit? <==> TriesAgain(konflux, a, attempts))
    && (step.Crashed? <==> Breaks(konflux, a)) && (step.End? <==> NothingToDo(a))
  }

  /** All rounds but the last led to another one. */
  ghost predicate IsLastRound(konflux: bool, answers: nat -> Answer, attempts: int, rounds: nat) {
    && rounds > 0 && !TriesAgain(konflux, answers(rounds - 1), attempts - (rounds - 1))
    && forall n: nat :: n < rounds - 1 ==> TriesAgain(konflux, answers(n), attempts - n)
  }

  /** One build for every round, except that the last may not have come to one. */
  ghost predicate AreBuilds(konflux: bool, answers: nat -> Answer, builds: seq<(nat, BuildEnd)>, rounds: nat) {
    && rounds > 0 && |builds| == (if Builds(konflux, answers(rounds - 1)) then rounds else rounds - 1)
    && forall n: nat :: n < |builds| ==> builds[n] == BuildOf(konflux, answers(n))
  }

  ghost predicate RoundsSoFar(konflux: bool, answers: nat -> Answer, start: int, used: nat, step: Step, attempts: int,
                              builds: seq<(nat, BuildEnd)>) {
    if used == 0 then step == PrepareDistGit && builds == [] && attempts == start
    else
      && EndsAt(konflux, answers(used - 1), start - (used - 1), step) && AreBuilds(konflux, answers, builds, used)
      && (step == PrepareDistGit ==> attempts == start - used > 0)
      && forall n: nat :: n < used - 1 ==> TriesAgain(konflux, answers(n), start - n)
  }

  lemma RoundCounts(konflux: bool, answers: nat -> Answer, start: int, used: nat, attempts: int, builds: seq<(nat, BuildEnd)>,
                    step: Step, attempts': int, builds': seq<(nat, BuildEnd)>)
    requires RoundsSoFar(konflux, answers, start, used, PrepareDistGit, attempts, builds)
    requires EndsAt(konflux, answers(used), attempts, step)
    requires builds' == if Builds(konflux, answers(used)) then builds + [BuildOf(konflux, answers(used))] else builds
    requires attempts' == attempts - if Builds(konflux, answers(used)) && answers(used).end.BuildFailed? then 1 else 0
    ensures RoundsSoFar(konflux, answers, start, used + 1, step, attempts', builds')
  {
  }

  /** Staging, commit and push come through, the push at least in effect. */
  predicate Pushes(a: Answer) { !a.stageRaised && !a.commit.Raises() && a.push.Works() }

  /** The workflow ends with a comment about a failure, after a round that answered last and with after for the rest. */
  predicate Reports(konflux: bool, dryRun: bool, last: Answer, after: Answer) {
    if Accepted(konflux, last) then after.stageRaised || after.commit.Raises() || (!dryRun && after.push.Raises())
    else !Breaks(konflux, last) && !NothingToDo(last)
  }

  predicate LeftIn(live: string, a: Answer, name: string) {
    name == ScratchName(live, a.hex) && Leaks(a.faults, a.finalDelete)
  }

  /** The random suffix never repeats. */
  ghost predicate DistinctHex(answers: nat -> Answer) { forall n: nat :: NewHex(answers, n) }

  predicate NewHex(answers: nat -> Answer, n: nat) { forall i :: 0 <= i < n ==> answers(i).hex != answers(n).hex }

  ghost predicate AllFresh(live: string, answers: nat -> Answer, fork: map<string, Commit>) {
    forall n: nat :: ScratchName(live, answers(n).hex) !in fork
  }

  /** Branches that were not there before are scratch branches of the first n rounds whose deletion failed. */
  ghost predicate OnlyLeaks(live: string, answers: nat -> Answer, n: nat, before: map<string, Commit>, after: map<string, Commit>) {
    forall name <- after :: name in before || exists i: nat :: i < n && LeftIn(live, answers(i), name)
  }

  /** The same for the clone. */
  ghost predicate OnlyLocal(live: string, answers: nat -> Answer, n: nat, before: map<string, Commit>, after: map<string, Commit>) {
    forall name <- after :: name in before || exists i: nat :: i < n && StaysIn(live, answers(i), name)
  }

  predicate StaysIn(live: string, a: Answer, name: string) { name == ScratchName(live, a.hex) && a.faults.StaysInClone() }

  lemma NewNameDeleted(branches: map<string, Commit>, name: string, at: Commit)
    requires name !in branches
    ensures branches - {name} == branches == branches[name := at] - {name}
  {
  }

  lemma OneMoreRound(live: string, answers: nat -> Answer, n: nat, before: map<string, Commit>, mid: map<string, Commit>,
                     after: map<string, Commit>)
    requires OnlyLeaks(live, answers, n, before, mid) && forall name <- after :: name in mid || LeftIn(live, answers(n), name)
    ensures OnlyLeaks(live, answers, n + 1, before, after)
  {
    forall name <- after | name !in before ensures exists i: nat :: i < n + 1 && LeftIn(live, answers(i), name) {
      if name in mid {
        var i: nat :| i < n && LeftIn(live, answers(i), name);
      }
    }
  }

  lemma OneMoreLocal(live: string, answers: nat -> Answer, n: nat, before: map<string, Commit>, mid: map<string, Commit>,
                     after: map<string, Commit>)
    requires OnlyLocal(live, answers, n, before, mid) && forall name <- after :: name in mid || StaysIn(live, answers(n), name)
    ensures OnlyLocal(live, answers, n + 1, before, after)
  {
    forall name <- after | name !in before ensures exists i: nat :: i < n + 1 && StaysIn(live, answers(i), name) {
      if name in mid {
        var i: nat :| i < n && StaysIn(live, answers(i), name);
      }
    }
  }

  /** With a cleanup that works, a scratch branch stays in the clone exactly when creating it took effect and
      still raised. */
  lemma StaysDespiteCleanup(f: Faults)
    requires f.deleteLocal.Works()
    ensures f.StaysInClone() <==> f.ReachesBranch() && f.branch.After?
  {
  }

  const BranchRaised := Faults(Fine, Fine, Fine, After, Fine, Fine, Fine, Fine, Fine)

  /** One failing command, and none of the cleanup's. */
  lemma BranchRaisedStays()
    ensures BranchRaised.StaysInClone() && !BranchRaised.Prepared() && BranchRaised.Restored()
  {
  }

  const AllFine := Faults(Fine, Fine, Fine, Fine, Fine, Fine, Fine, Fine, Fine)

  /** The k-th command ends in x, the others work. */
  function OneFault(k: nat, x: Fault): Faults {
    match k
    case 0 => AllFine.(revParse := x)
    case 1 => AllFine.(stage := x)
    case 2 => AllFine.(commit := x)
    case 3 => AllFine.(branch := x)
    case 4 => AllFine.(push := x)
    case 5 => AllFine.(reset := x)
    case 6 => AllFine.(cleanupReset := x)
    case 7 => AllFine.(deleteRemote := x)
    case _ => AllFine.(deleteLocal := x)
  }

  /** A single failing command is repaired: HEAD is where it was, and nothing stays on the fork; in the clone a
      branch stays only if creating it took effect and raised, or if deleting it had none. The build is prepared
      unless one of the first six raised. */
  lemma OneFaultIsRepaired(k: nat, x: Fault)
    requires k < 9
    ensures var f := OneFault(k, x);
      && f.Restored() && !Leaks(f, Fine)
      && (f.StaysInClone() <==> (k == 3 && x.After?) || (k == 8 && x.Before?))
      && (f.Prepared() <==> k >= 6 || x.Fine?)
  {
  }

  lemma SameScratch(live: string, h: string, k: string)
    requires ScratchName(live, h) == ScratchName(live, k)
    ensures h == k
  {
    var front := live + "-ymir-konflux-build-";
    assert ScratchName(live, h)[|front|..] == h && ScratchName(live, k)[|front|..] == k;
  }

  lemma StillFresh(live: string, answers: nat -> Answer, n: nat, before: map<string, Commit>, now: map<string, Commit>)
    requires DistinctHex(answers) && OnlyLeaks(live, answers, n, before, now) && ScratchName(live, answers(n).hex) !in before
    ensures ScratchName(live, answers(n).hex) !in now
  {
    var name := ScratchName(live, answers(n).hex);
    assert NewHex(answers, n);
    forall i: nat | i < n ensures !LeftIn(live, answers(i), name) {
      if ScratchName(live, answers(i).hex) == name {
        SameScratch(live, answers(i).hex, answers(n).hex);
      }
    }
  }

  /** A push that took effect and whose deletion did not. */
  predicate Leaks(f: Faults, finalDelete: Fault) {
    f.Pushed() && if f.Prepared() then !finalDelete.Works() else !f.deleteRemote.Works()
  }
}

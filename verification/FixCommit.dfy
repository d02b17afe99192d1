/** Finding the one commit that fixed an issue on the Z-stream, in any commit graph. */
module FixCommit {
  import opened Common

  type Id = nat

  /** keys: what the Resolves footers of the message name, in upper case. */
  datatype Commit = Commit(parents: set<Id>, keys: set<string>)

  type Repo = map<Id, Commit>

  // ---------------------------------------------------------------- history

  ghost predicate Reach(repo: Repo, tip: Id, c: Id, n: nat)
    decreases n
  {
    && tip in repo
    && if n == 0 then c == tip else exists p :: p in repo[tip].parents && Reach(repo, p, c, n - 1)
  }

  /** c is tip or an ancestor of it. */
  ghost predicate Contains(repo: Repo, tip: Id, c: Id) { exists n :: Reach(repo, tip, c, n) }

  lemma {:induction false} ReachTrans(repo: Repo, a: Id, b: Id, c: Id, n: nat, m: nat)
    requires Reach(repo, a, b, n) && Reach(repo, b, c, m)
    ensures Reach(repo, a, c, n + m)
    decreases n
  {
    if n > 0 {
      var p :| p in repo[a].parents && Reach(repo, p, b, n - 1);
      ReachTrans(repo, p, b, c, n - 1, m);
    }
  }

  lemma ContainsTrans(repo: Repo, a: Id, b: Id, c: Id)
    requires Contains(repo, a, b) && Contains(repo, b, c)
    ensures Contains(repo, a, c)
  {
    var n: nat :| Reach(repo, a, b, n);
    var m: nat :| Reach(repo, b, c, m);
    ReachTrans(repo, a, b, c, n, m);
  }

  /** A best common ancestor; a graph may have several, git names one. */
  ghost predicate IsMergeBase(repo: Repo, y: Id, z: Id, m: Id) {
    && Contains(repo, y, m) && Contains(repo, z, m)
    && forall c :: Contains(repo, y, c) && Contains(repo, z, c) && Contains(repo, c, m) ==> c == m
  }

  /** base..z */
  ghost predicate InRange(repo: Repo, base: Id, z: Id, c: Id) { Contains(repo, z, c) && !Contains(repo, base, c) }

  ghost predicate Mentions(repo: Repo, c: Id, key: string) { c in repo && key in repo[c].keys }

  /** In the range and resolving the key, alone or with others. */
  ghost predicate Candidate(repo: Repo, base: Id, z: Id, key: string, c: Id) {
    InRange(repo, base, z, c) && Mentions(repo, c, key)
  }

  lemma {:induction false} ReachedIsCommit(repo: Repo, tip: Id, c: Id, n: nat)
    requires Reach(repo, tip, c, n)
    ensures c in repo
    decreases n
  {
    if n > 0 {
      var p :| p in repo[tip].parents && Reach(repo, p, c, n - 1);
      ReachedIsCommit(repo, p, c, n - 1);
    }
  }

  // ---------------------------------------------------------------- what git answers

  /** None for a command that failed; isAncestor gives exit codes. */
  datatype Git = Git(mergeBase: Option<Id>, listed: Option<seq<Id>>, grepped: Option<seq<Id>>, isAncestor: Id -> int)

  /** The listings hold the commits asked for, the grep at least those that resolve the key. */
  ghost predicate Truthful(repo: Repo, y: Id, z: Id, key: string, g: Git) {
    && (g.mergeBase.Some? ==> IsMergeBase(repo, y, z, g.mergeBase.value))
    && (g.mergeBase.Some? && g.listed.Some? ==>
          forall c :: c in g.listed.value <==> InRange(repo, g.mergeBase.value, z, c))
    && (g.grepped.Some? ==>
          && (forall c <- g.grepped.value :: Contains(repo, z, c))
          && (forall c :: Contains(repo, z, c) && Mentions(repo, c, key) ==> c in g.grepped.value))
    && (forall c :: g.isAncestor(c) == 0 ==> Contains(repo, y, c))
    && (forall c :: g.isAncestor(c) == 1 ==> !Contains(repo, y, c))
  }

  /** is-ancestor never fails. */
  ghost predicate Decisive(g: Git) { forall c :: g.isAncestor(c) == 0 || g.isAncestor(c) == 1 }

  datatype Outcome = Found(commit: Id) | AlreadyInherited(commit: Id) | CandidateError | GitFailed

  // ---------------------------------------------------------------- the search

  predicate Exactly(repo: Repo, c: Id, key: string) { c in repo && repo[c].keys == {key} }

  /** The first loop: collect the commits of the range that resolve the key; any that resolves more is an error. */
  method Matches(repo: Repo, listed: seq<Id>, key: string) returns (ok: bool, matches: seq<Id>)
    requires forall c <- listed :: c in repo
    ensures ok <==> forall c <- listed :: key in repo[c].keys ==> repo[c].keys == {key}
    ensures ok ==> forall c :: c in matches <==> c in listed && key in repo[c].keys
    ensures ok ==> |matches| <= |listed|
    ensures ok && (forall i, j :: 0 <= i < j < |listed| ==> listed[i] != listed[j]) ==>
            forall i, j :: 0 <= i < j < |matches| ==> matches[i] != matches[j]
  {
    matches := [];
    for i := 0 to |listed|
      invariant forall c <- listed[..i] :: key in repo[c].keys ==> repo[c].keys == {key}
      invariant forall c :: c in matches <==> c in listed[..i] && key in repo[c].keys
      invariant |matches| <= i
      invariant (forall k, j :: 0 <= k < j < |listed| ==> listed[k] != listed[j]) ==>
            forall k, j :: 0 <= k < j < |matches| ==> matches[k] != matches[j]
    {
      assert listed[..i+1] == listed[..i] + [listed[i]];
      var keys := repo[listed[i]].keys;
      if key in keys {
        if keys != {key} {
          assert listed[i] in listed;
          return false, matches;
        }
        matches := matches + [listed[i]];
      }
    }
    assert listed[..|listed|] == listed;
    ok := true;
  }

  /** c is the first grepped commit outside the range that resolves the key. */
  ghost predicate FirstHistoric(repo: Repo, grepped: seq<Id>, listed: seq<Id>, key: string, c: Id) {
    exists k: nat :: k < |grepped| && grepped[k] == c && IsHistoric(repo, listed, key, c)
      && forall j :: 0 <= j < k ==> !IsHistoric(repo, listed, key, grepped[j])
  }

  predicate IsHistoric(repo: Repo, listed: seq<Id>, key: string, c: Id) {
    c !in listed && c in repo && key in repo[c].keys
  }

  /** The second loop, when the range has no match: an older fix decides, if the Y-stream has it. */
  method Historic(repo: Repo, grepped: seq<Id>, listed: seq<Id>, key: string, isAncestor: Id -> int) returns (outcome: Option<Outcome>)
    requires forall c <- grepped :: c in repo
    ensures outcome.None? ==> forall k :: 0 <= k < |grepped| && IsHistoric(repo, listed, key, grepped[k]) ==> isAncestor(grepped[k]) != 0
    ensures outcome.Some? ==> exists k: nat :: k < |grepped| && Decides(repo, grepped, listed, key, isAncestor, k, outcome.value)
  {
    for i := 0 to |grepped|
      invariant forall j :: 0 <= j < i && IsHistoric(repo, listed, key, grepped[j]) ==>
        Exactly(repo, grepped[j], key) && isAncestor(grepped[j]) != 0
    {
      var c := grepped[i];
      if c !in listed && key in repo[c].keys {
        if repo[c].keys != {key} {
          assert Decides(repo, grepped, listed, key, isAncestor, i, CandidateError);
          return Some(CandidateError);
        }
        if isAncestor(c) == 0 {
          assert Decides(repo, grepped, listed, key, isAncestor, i, AlreadyInherited(c));
          return Some(AlreadyInherited(c));
        }
      }
    }
    outcome := None;
  }

  /** The k-th grepped commit is historic and ends the loop with this outcome; no earlier one did. */
  predicate Decides(repo: Repo, grepped: seq<Id>, listed: seq<Id>, key: string, isAncestor: Id -> int, k: nat, outcome: Outcome) {
    && k < |grepped| && IsHistoric(repo, listed, key, grepped[k])
    && (if Exactly(repo, grepped[k], key) then isAncestor(grepped[k]) == 0 && outcome == AlreadyInherited(grepped[k])
        else outcome == CandidateError)
    && forall j :: 0 <= j < k && IsHistoric(repo, listed, key, grepped[j]) ==>
         Exactly(repo, grepped[j], key) && isAncestor(grepped[j]) != 0
  }

  method FindZStreamFixCommit(repo: Repo, y: Id, z: Id, key: string, g: Git) returns (outcome: Outcome)
    requires g.listed.Some? ==> forall c <- g.listed.value :: c in repo
    requires g.grepped.Some? ==> forall c <- g.grepped.value :: c in repo
    requires g.listed.Some? ==> forall i, j :: 0 <= i < j < |g.listed.value| ==> g.listed.value[i] != g.listed.value[j]
    ensures Result(repo, key, g, outcome)
  {
    if g.mergeBase.None? {
      return CandidateError;
    }
    if g.listed.None? {
      return GitFailed;
    }
    var ok, matches := Matches(repo, g.listed.value, key);
    if !ok {
      ghost var d :| d in g.listed.value && key in repo[d].keys && repo[d].keys != {key};
      assert forall c :: !OnlyMatch(repo, g.listed.value, key, c);
      return CandidateError;
    }
    if matches == [] {
      if g.grepped.None? {
        return GitFailed;
      }
      var historic := Historic(repo, g.grepped.value, g.listed.value, key, g.isAncestor);
      if historic.Some? {
        return historic.value;
      }
    }
    if |matches| != 1 {
      if |matches| > 1 {
        assert matches[0] in matches && matches[1] in matches;
      }
      return CandidateError;
    }
    assert matches[0] in matches;
    assert OnlyMatch(repo, g.listed.value, key, matches[0]);
    var exit := g.isAncestor(matches[0]);
    outcome := if exit == 0 then AlreadyInherited(matches[0]) else if exit == 1 then Found(matches[0]) else CandidateError;
  }

  /** c is the only listed commit that resolves the key, and it resolves nothing else. */
  predicate OnlyMatch(repo: Repo, listed: seq<Id>, key: string, c: Id) {
    c in listed && Exactly(repo, c, key) && forall d <- listed :: d in repo && key in repo[d].keys ==> d == c
  }

  predicate NoMatch(repo: Repo, listed: seq<Id>, key: string) { forall d <- listed :: d in repo ==> key !in repo[d].keys }

  /** What the search answers, in terms of what git answered. */
  ghost predicate Result(repo: Repo, key: string, g: Git, outcome: Outcome) {
    if g.mergeBase.None? then outcome == CandidateError
    else if g.listed.None? then outcome == GitFailed
    else
      var listed := g.listed.value;
      && (forall c :: OnlyMatch(repo, listed, key, c) ==>
            outcome == if g.isAncestor(c) == 0 then AlreadyInherited(c) else if g.isAncestor(c) == 1 then Found(c) else CandidateError)
      && (NoMatch(repo, listed, key) ==>
            if g.grepped.None? then outcome == GitFailed
            else outcome == CandidateError || exists k :: Decides(repo, g.grepped.value, listed, key, g.isAncestor, k, outcome))
      && (NoMatch(repo, listed, key) && g.grepped.Some? && outcome == CandidateError ==>
            (exists k :: Decides(repo, g.grepped.value, listed, key, g.isAncestor, k, outcome))
            || forall c <- g.grepped.value :: IsHistoric(repo, listed, key, c) ==> g.isAncestor(c) != 0)
      && (!NoMatch(repo, listed, key) && (forall c :: !OnlyMatch(repo, listed, key, c)) ==> outcome == CandidateError)
  }

  // ---------------------------------------------------------------- what that means for the graph

  /** c is the one commit of the range that resolves the key, and it resolves nothing else. */
  ghost predicate TheFix(repo: Repo, base: Id, z: Id, key: string, c: Id) {
    Candidate(repo, base, z, key, c) && Exactly(repo, c, key) && forall d :: Candidate(repo, base, z, key, d) ==> d == c
  }

  lemma ListedIsRange(repo: Repo, y: Id, z: Id, key: string, g: Git, c: Id)
    requires Truthful(repo, y, z, key, g) && g.mergeBase.Some? && g.listed.Some?
    ensures OnlyMatch(repo, g.listed.value, key, c) <==> TheFix(repo, g.mergeBase.value, z, key, c)
    ensures NoMatch(repo, g.listed.value, key) <==> forall d :: !Candidate(repo, g.mergeBase.value, z, key, d)
  {
    forall d ensures d in repo && d in g.listed.value && key in repo[d].keys <==> Candidate(repo, g.mergeBase.value, z, key, d) {
      assert d in g.listed.value <==> InRange(repo, g.mergeBase.value, z, d);
    }
  }

  /** Every historic fix passes the ancestor check, so the first one decides. */
  lemma FirstHistoricDecides(repo: Repo, y: Id, z: Id, key: string, g: Git, outcome: Outcome, c: Id)
    requires Truthful(repo, y, z, key, g) && Decisive(g) && Result(repo, key, g, outcome)
    requires g.mergeBase.Some? && g.listed.Some? && g.grepped.Some? && NoMatch(repo, g.listed.value, key)
    ensures outcome == AlreadyInherited(c) <==> FirstHistoric(repo, g.grepped.value, g.listed.value, key, c) && Exactly(repo, c, key)
  {
    var (grepped, listed) := (g.grepped.value, g.listed.value);
    forall d <- grepped | IsHistoric(repo, listed, key, d) ensures g.isAncestor(d) == 0 {
      assert !InRange(repo, g.mergeBase.value, z, d);
      HistoricIsInherited(repo, y, z, g.mergeBase.value, d);
    }
    if outcome == AlreadyInherited(c) {
      var k :| Decides(repo, grepped, listed, key, g.isAncestor, k, outcome);
      assert forall j :: 0 <= j < k ==> !IsHistoric(repo, listed, key, grepped[j]);
    }
    if FirstHistoric(repo, grepped, listed, key, c) && Exactly(repo, c, key) {
      var f: nat :| f < |grepped| && grepped[f] == c && IsHistoric(repo, listed, key, c)
        && forall j :: 0 <= j < f ==> !IsHistoric(repo, listed, key, grepped[j]);
      assert Decides(repo, grepped, listed, key, g.isAncestor, f, AlreadyInherited(c));
      var k :| Decides(repo, grepped, listed, key, g.isAncestor, k, outcome);
    }
  }

  /** A fix outside the range is in the Y-stream already: it lies at or below the merge base. */
  lemma HistoricIsInherited(repo: Repo, y: Id, z: Id, base: Id, c: Id)
    requires IsMergeBase(repo, y, z, base) && Contains(repo, z, c) && !InRange(repo, base, z, c)
    ensures Contains(repo, y, c)
  {
    ContainsTrans(repo, y, base, c);
  }

  /** A returned commit is the only one the Z-stream has over the Y-stream that resolves the key, whichever
      merge base git picked; "already inherited" names a commit both streams have. */
  lemma ResultIsSound(repo: Repo, y: Id, z: Id, key: string, g: Git, outcome: Outcome)
    requires Truthful(repo, y, z, key, g) && Result(repo, key, g, outcome)
    ensures outcome.Found? ==> g.mergeBase.Some? && TheFix(repo, g.mergeBase.value, z, key, outcome.commit)
    ensures outcome.Found? ==> forall d ::
      Contains(repo, z, d) && Mentions(repo, d, key) && !Contains(repo, y, d) <==> d == outcome.commit
    ensures outcome.AlreadyInherited? ==>
      Exactly(repo, outcome.commit, key) && Contains(repo, z, outcome.commit) && Contains(repo, y, outcome.commit)
  {
    if g.mergeBase.Some? && g.listed.Some? {
      var base := g.mergeBase.value;
      if c :| OnlyMatch(repo, g.listed.value, key, c) {
        ListedIsRange(repo, y, z, key, g, c);
        forall d | Contains(repo, z, d) && Mentions(repo, d, key) && !Contains(repo, y, d) ensures Candidate(repo, base, z, key, d) {
          if Contains(repo, base, d) {
            ContainsTrans(repo, y, base, d);
          }
        }
      }
    }
  }

  /** With git answering everything, exactly which commit makes the search end how. */
  lemma ResultIsExact(repo: Repo, y: Id, z: Id, key: string, g: Git, outcome: Outcome, c: Id)
    requires Truthful(repo, y, z, key, g) && Decisive(g) && Result(repo, key, g, outcome)
    requires g.mergeBase.Some? && g.listed.Some? && g.grepped.Some?
    ensures outcome == Found(c) <==> TheFix(repo, g.mergeBase.value, z, key, c) && !Contains(repo, y, c)
    ensures outcome == AlreadyInherited(c) <==>
      || (TheFix(repo, g.mergeBase.value, z, key, c) && Contains(repo, y, c))
      || ((forall d :: !Candidate(repo, g.mergeBase.value, z, key, d)) && FirstHistoric(repo, g.grepped.value, g.listed.value, key, c)
          && Exactly(repo, c, key))
  {
    ListedIsRange(repo, y, z, key, g, c);
    if NoMatch(repo, g.listed.value, key) {
      FirstHistoricDecides(repo, y, z, key, g, outcome, c);
    } else if d :| TheFix(repo, g.mergeBase.value, z, key, d) {
      ListedIsRange(repo, y, z, key, g, d);
    } else {
      forall d ensures !OnlyMatch(repo, g.listed.value, key, d) {
        ListedIsRange(repo, y, z, key, g, d);
      }
    }
  }
}

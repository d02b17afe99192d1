/** The spans the trace server receives, and what it means for a span to inherit an agent type. */
module TraceSpans {
  import opened Common

  datatype Key = Key(trace: string, id: string)

  /** A span as extracted from an OTLP payload: empty id or parent means "not given"; own is the
      agent type its name gives it. */
  datatype Span = Span(trace: string, id: string, parent: string, name: string, own: Option<string>,
                       start: int, issues: set<string>)
  {
    function RowKey(): Key { Key(trace, id) }

    /** The in-memory walk tests truthiness, so an empty type counts as none. */
    predicate Typed() { own.Some? && own.value != "" }
  }

  // ---------------------------------------------------------------- agent type of a span name

  predicate Lower(c: char) { 'a' <= c <= 'z' }
  predicate Upper(c: char) { 'A' <= c <= 'Z' }

  function ToLower(c: char): char { if Upper(c) then c - 'A' + 'a' else c }

  /** A word boundary of a camel-case name, before position i. */
  predicate Boundary(s: string, i: nat)
    requires 0 < i < |s|
  {
    && Upper(s[i])
    && (Lower(s[i-1]) || (Upper(s[i-1]) && i + 1 < |s| && Lower(s[i+1])))
  }

  function SnakeFrom(s: string, i: nat): (r: string)
    requires i <= |s|
    ensures |r| >= |s| - i
    decreases |s| - i
  {
    if i == |s| then ""
    else
      var rest := [ToLower(s[i])] + SnakeFrom(s, i + 1);
      if 0 < i && Boundary(s, i) then "_" + rest else rest
  }

  function AgentTypeOf(name: string): Option<string> {
    if EndsWith(name, "Agent") || EndsWith(name, "Analyst")
    then Some(SnakeFrom(RemoveSuffix(RemoveSuffix(name, "Agent"), "Analyst"), 0))
    else None
  }

  /** A capitalised word of a camel-case name, or an acronym. */
  predicate Capitalised(w: string) { |w| >= 2 && Upper(w[0]) && forall i :: 1 <= i < |w| ==> Lower(w[i]) }

  predicate Acronym(w: string) { w != "" && forall i :: 0 <= i < |w| ==> Upper(w[i]) }

  /** w can follow last: no acronym follows another. */
  predicate Follows(last: string, w: string) { Capitalised(w) || (Acronym(w) && !Acronym(last)) }

  /** The words of a name. */
  predicate CamelCase(words: seq<string>) {
    && (words != [] ==> Capitalised(words[0]) || Acronym(words[0]))
    && forall i :: 0 < i < |words| ==> Follows(words[i-1], words[i])
  }

  function Joined(words: seq<string>): string { if words == [] then "" else words[0] + Joined(words[1..]) }

  function Lowered(s: string): (r: string)
    ensures |r| == |s| && forall i :: 0 <= i < |s| ==> r[i] == ToLower(s[i])
  {
    seq(|s|, i requires 0 <= i < |s| => ToLower(s[i]))
  }

  /** The words in lower case, each after the first behind an underscore. */
  function Underscored(words: seq<string>): string {
    if words == [] then "" else "_" + (Lowered(words[0]) + Underscored(words[1..]))
  }

  function Snake(words: seq<string>): string { if words == [] then "" else Lowered(words[0]) + Underscored(words[1..]) }

  lemma LoweredStep(s: string, i: nat, j: nat)
    requires i < j <= |s|
    ensures Lowered(s[i..j]) == [ToLower(s[i])] + Lowered(s[i+1..j])
  {
  }

  predicate Marked(s: string, i: nat)
    requires i < |s|
  {
    0 < i && Boundary(s, i)
  }

  /** Positions i to j are one word. */
  predicate IsWord(s: string, i: nat, j: nat) { i < j <= |s| && forall k :: i < k < j ==> !Marked(s, k) }

  lemma {:induction false} SnakeWord(s: string, i: nat, j: nat)
    requires IsWord(s, i, j)
    ensures var rest := Lowered(s[i..j]) + SnakeFrom(s, j); SnakeFrom(s, i) == if Marked(s, i) then "_" + rest else rest
    decreases j - i
  {
    LoweredStep(s, i, j);
    if i + 1 < j {
      SnakeWord(s, i + 1, j);
      ConcatAssoc([ToLower(s[i])], Lowered(s[i+1..j]), SnakeFrom(s, j));
    }
  }

  /** Where a word stands in a name, after last and before next, if there are any. */
  predicate WordAt(s: string, i: nat, w: string, last: string, next: string) {
    && |last| <= i && i + |w| + |next| <= |s| && s[i-|last|..i] == last && s[i..i+|w|] == w && s[i+|w|..i+|w|+|next|] == next
    && (last == "" ==> i == 0) && (next == "" ==> i + |w| == |s|)
  }

  /** w can stand between last and next. */
  predicate Between(last: string, w: string, next: string) {
    && (Capitalised(w) || Acronym(w))
    && (last != "" ==> (Capitalised(last) || Acronym(last)) && Follows(last, w))
    && (next != "" ==> (Capitalised(next) || Acronym(next)) && Follows(w, next))
  }

  lemma WordBoundaries(s: string, i: nat, w: string, last: string, next: string)
    requires WordAt(s, i, w, last, next) && Between(last, w, next)
    ensures IsWord(s, i, i + |w|) && (Marked(s, i) <==> last != "")
  {
    assert forall k :: 0 <= k < |w| ==> w[k] == s[i..i+|w|][k];
    assert next != "" ==> s[i+|w|..i+|w|+|next|][0] == s[i+|w|];
    assert last != "" ==> s[i-|last|..i][|last|-1] == s[i-1];
    forall k | i < k < i + |w| ensures !Marked(s, k) {
      assert s[k] == w[k-i] && s[k-1] == w[k-i-1];
      if Acronym(w) && k + 1 < |s| {
        assert if k + 1 < i + |w| then s[k+1] == w[k+1-i] else s[k+1] == next[0];
        assert Upper(s[k+1]);
      }
    }
    assert s[i] == w[0] && (|w| > 1 ==> s[i+1] == w[1]);
  }

  /** The words from i on, after a word last, if there is one. */
  ghost predicate WordsAt(s: string, i: nat, words: seq<string>, last: string) {
    && |last| <= i <= |s| && s[i..] == Joined(words) && s[i-|last|..i] == last && (last == "" ==> i == 0)
    && CamelCase(words)
    && (last != "" && words != [] ==> (Capitalised(last) || Acronym(last)) && Follows(last, words[0]))
  }

  function Second(words: seq<string>): string { if |words| > 1 then words[1] else "" }

  lemma NextWordsAt(s: string, i: nat, words: seq<string>, last: string)
    requires WordsAt(s, i, words, last) && words != []
    ensures words[0] != "" && WordsAt(s, i + |words[0]|, words[1..], words[0])
    ensures WordAt(s, i, words[0], last, Second(words)) && Between(last, words[0], Second(words))
  {
    SplitWord(s, i, words);
    RestIsCamelCase(words);
    assert |words| > 1 ==> Follows(words[0], words[1]);
  }

  lemma OneWord(s: string, i: nat, j: nat, w: string, last: string)
    requires IsWord(s, i, j) && s[i..j] == w && (Marked(s, i) <==> last != "")
    ensures var rest := Lowered(w) + SnakeFrom(s, j); SnakeFrom(s, i) == if last != "" then "_" + rest else rest
  {
    SnakeWord(s, i, j);
  }

  lemma NextWord(s: string, i: nat, words: seq<string>, last: string)
    requires WordsAt(s, i, words, last) && words != []
    ensures words[0] != "" && WordsAt(s, i + |words[0]|, words[1..], words[0])
    ensures var rest := Lowered(words[0]) + SnakeFrom(s, i + |words[0]|); SnakeFrom(s, i) == if last != "" then "_" + rest else rest
  {
    NextWordsAt(s, i, words, last);
    WordBoundaries(s, i, words[0], last, Second(words));
    OneWord(s, i, i + |words[0]|, words[0], last);
  }

  lemma WordsChain(words: seq<string>, here: string, there: string, first: bool)
    requires words != [] && there == Underscored(words[1..])
    requires var rest := Lowered(words[0]) + there; here == if first then rest else "_" + rest
    ensures here == if first then Snake(words) else Underscored(words)
  {
  }

  lemma {:induction false} SnakeWords(s: string, i: nat, words: seq<string>, last: string)
    requires WordsAt(s, i, words, last)
    ensures SnakeFrom(s, i) == if last == "" then Snake(words) else Underscored(words)
    decreases |words|
  {
    if words != [] {
      NextWord(s, i, words, last);
      var j := i + |words[0]|;
      SnakeWords(s, j, words[1..], words[0]);
      WordsChain(words, SnakeFrom(s, i), SnakeFrom(s, j), last == "");
    }
  }

  lemma SplitWord(s: string, i: nat, words: seq<string>)
    requires i <= |s| && words != [] && s[i..] == Joined(words)
    ensures var (w, rest) := (words[0], words[1..]);
      var j := i + |w|;
      && j <= |s| && s[i..j] == w && s[j..] == Joined(rest)
      && (if rest == [] then j == |s| else j + |rest[0]| <= |s| && s[j..j+|rest[0]|] == rest[0])
  {
    var (w, rest) := (words[0], words[1..]);
    var j := i + |w|;
    assert s[i..][..|w|] == s[i..j] && s[i..][|w|..] == s[j..];
    if rest != [] {
      assert s[j..][..|rest[0]|] == s[j..j+|rest[0]|];
    }
  }

  lemma RestIsCamelCase(words: seq<string>)
    requires words != [] && CamelCase(words)
    ensures CamelCase(words[1..])
  {
    var rest := words[1..];
    forall k | 0 < k < |rest| ensures Follows(rest[k-1], rest[k]) {
      assert Follows(words[k], words[k+1]);
    }
    assert rest != [] ==> Follows(words[0], words[1]);
  }

  /** A name ending in "Agent", in "Analyst" or in both in this order gives the words before, in lower case and with
      underscores between them; any other name gives none. */
  lemma AgentTypeIs(words: seq<string>)
    requires CamelCase(words)
    ensures AgentTypeOf(Joined(words) + "Analyst") == AgentTypeOf(Joined(words) + "Analyst" + "Agent") == Some(Snake(words))
    ensures !EndsWith(Joined(words), "Analyst") ==> AgentTypeOf(Joined(words) + "Agent") == Some(Snake(words))
    ensures !EndsWith(Joined(words), "Agent") && !EndsWith(Joined(words), "Analyst") ==> AgentTypeOf(Joined(words)) == None
  {
    var stem := Joined(words);
    SnakeWords(stem, 0, words, "");
    assert stem[0..] == stem && stem[0..0] == "";
    SuffixGone(stem, "Agent");
    SuffixGone(stem, "Analyst");
    SuffixGone(stem + "Analyst", "Agent");
    AnalystIsNoAgent(stem);
  }

  lemma AnalystIsNoAgent(stem: string)
    ensures !EndsWith(stem + "Analyst", "Agent")
  {
    var s := stem + "Analyst";
    assert s[|s|-5..][3] == s[|s|-2] == "Analyst"[5] == 's';
  }

  lemma SuffixGone(stem: string, suffix: string)
    ensures EndsWith(stem + suffix, suffix) && RemoveSuffix(stem + suffix, suffix) == stem
  {
  }

  /** The derived type is empty for three names only. */
  lemma EmptyTypeNames(name: string)
    ensures AgentTypeOf(name) == Some("") <==> name in {"Agent", "Analyst", "AnalystAgent"}
  {
    if AgentTypeOf(name) == Some("") {
      EmptyTypeIsSuffixes(name);
    }
  }

  lemma EmptyTypeIsSuffixes(name: string)
    requires AgentTypeOf(name) == Some("")
    ensures name in {"Agent", "Analyst", "AnalystAgent"}
  {
    var stem := RemoveSuffix(name, "Agent");
    assert RemoveSuffix(stem, "Analyst") == "";
    assert stem == "" + (if EndsWith(stem, "Analyst") then "Analyst" else "");
    assert name == stem + (if EndsWith(name, "Agent") then "Agent" else "");
    assert "Analyst" + "Agent" == "AnalystAgent";
  }

  // ---------------------------------------------------------------- inheritance along parent links

  /** Within a batch, `s` is n parent links below a typed span whose type is t, through untyped spans.
      Parent links are matched by span id alone, whatever the trace. */
  ghost predicate MemReach(b: set<Span>, s: Span, n: nat, t: string)
    decreases n
  {
    if s.Typed() then n == 0 && s.own == Some(t)
    else n > 0 && exists p :: MemParent(b, s, p) && MemReach(b, p, n - 1, t)
  }

  predicate MemParent(b: set<Span>, s: Span, p: Span) {
    p in b && p.id != "" && p.id == s.parent
  }

  ghost predicate MemReaches(b: set<Span>, s: Span, t: string) { exists n :: MemReach(b, s, n, t) }

  /** What the in-memory walk may leave in a row: the type of some typed span above it, or its own
      (missing or empty) type when there is none. */
  ghost predicate MemOutcome(b: set<Span>, s: Span, ty: Option<string>) {
    || (ty.Some? && MemReaches(b, s, ty.value))
    || (ty == s.own && forall t :: !MemReaches(b, s, t))
  }

  /** Within stored spans, the nearest ancestor-or-self of k in its own trace that has a type has type t. */
  ghost predicate DbReach(m: map<Key, Span>, k: Key, n: nat, t: string)
    decreases n
  {
    && k in m
    && if m[k].own.Some? then n == 0 && m[k].own == Some(t)
       else n > 0 && m[k].parent != "" && DbReach(m, Key(k.trace, m[k].parent), n - 1, t)
  }

  ghost predicate DbReaches(m: map<Key, Span>, k: Key, t: string) { exists n :: DbReach(m, k, n, t) }

  /** Its own type, else that of the nearest typed ancestor through stored parent links, else none. */
  ghost function Nearest(m: map<Key, Span>, k: Key): Option<string> {
    if exists t :: DbReaches(m, k, t) then var t :| DbReaches(m, k, t); Some(t) else None
  }
}

/** Blanks, line breaks and line splitting as Python's str has them. */
module Text {
  import opened Common

  predicate IsSpace(c: char) {
    || '\t' <= c <= '\r' || '\U{1C}' <= c <= ' ' || c == '\U{85}' || c == '\U{A0}' || c == '\U{1680}'
    || '\U{2000}' <= c <= '\U{200A}' || '\U{2028}' <= c <= '\U{2029}' || c == '\U{202F}' || c == '\U{205F}' || c == '\U{3000}'
  }

  predicate IsDigit(c: char) { '0' <= c <= '9' }

  predicate OnlyDigits(s: string) { forall c <- s :: IsDigit(c) }

  predicate Blank(s: string) { forall c <- s :: IsSpace(c) }

  function SkipSpaces(s: string): (r: string)
    ensures |r| <= |s|
  {
    if s != "" && IsSpace(s[0]) then SkipSpaces(s[1..]) else s
  }

  function TrimEnd(s: string): (r: string)
    ensures |r| <= |s|
  {
    if s != "" && IsSpace(s[|s|-1]) then TrimEnd(s[..|s|-1]) else s
  }

  predicate IsBreak(c: char) {
    '\n' <= c <= '\r' || '\U{1C}' <= c <= '\U{1E}' || c == '\U{85}' || '\U{2028}' <= c <= '\U{2029}'
  }

  /** Characters up to the first line break. */
  function FirstLine(s: string): (r: string)
    ensures |r| <= |s| && r == s[..|r|] && (|r| < |s| ==> IsBreak(s[|r|])) && forall c <- r :: !IsBreak(c)
  {
    if s == "" || IsBreak(s[0]) then "" else [s[0]] + FirstLine(s[1..])
  }

  function SplitLines(s: string): seq<string>
    decreases |s|
  {
    if s == "" then []
    else
      var n := |FirstLine(s)|;
      if n == |s| then [s]
      else if s[n] == '\r' && n + 1 < |s| && s[n+1] == '\n' then [s[..n]] + SplitLines(s[n+2..])
      else [s[..n]] + SplitLines(s[n+1..])
  }

  predicate OneLine(s: string) { forall c <- s :: !IsBreak(c) }

  predicate StartsWith(s: string, prefix: string) { |prefix| <= |s| && s[..|prefix|] == prefix }

  function Strip(s: string): string { TrimEnd(SkipSpaces(s)) }

  /** Lines as the multi-line patterns see them: separated by "\n" and nothing else. */
  function Unsplit(lines: seq<string>): string {
    if lines == [] then "" else if |lines| == 1 then lines[0] else lines[0] + "\n" + Unsplit(lines[1..])
  }

  function Split(s: string): (lines: seq<string>)
    ensures lines != [] && Unsplit(lines) == s
    ensures forall line <- lines :: '\n' !in line
  {
    if s == "" then [""]
    else
      var rest := Split(s[1..]);
      if s[0] == '\n' then [""] + rest else [[s[0]] + rest[0]] + rest[1..]
  }

  lemma {:induction false} FirstLineWithin(a: string, b: string)
    requires !OneLine(a)
    ensures |FirstLine(a)| < |a| && FirstLine(a + b) == FirstLine(a)
  {
    if !IsBreak(a[0]) {
      assert (a + b)[1..] == a[1..] + b;
      FirstLineWithin(a[1..], b);
    }
  }

  lemma {:induction false} FirstLineAll(a: string, b: string)
    requires OneLine(a) && (b == "" || IsBreak(b[0]))
    ensures FirstLine(a + b) == a
  {
    if a == "" {
      assert a + b == b;
    } else {
      assert (a + b)[1..] == a[1..] + b;
      FirstLineAll(a[1..], b);
    }
  }

  lemma SplitOneLine(s: string)
    requires OneLine(s)
    ensures SplitLines(s) == if s == "" then [] else [s]
  {
    FirstLineAll(s, "");
    assert s + "" == s;
  }

  function BreakSize(s: string, n: nat): nat
    requires n < |s|
  {
    if s[n] == '\r' && n + 1 < |s| && s[n+1] == '\n' then 2 else 1
  }

  lemma SplitNext(s: string)
    requires s != ""
    ensures var n := |FirstLine(s)|; SplitLines(s) == if n == |s| then [s] else [s[..n]] + SplitLines(s[n + BreakSize(s, n)..])
  {
  }

  lemma SameBreak(front: string, p: string, n: nat)
    requires n < |front| && OneLine(p)
    ensures BreakSize(front + p, n) == BreakSize(front, n) && n + BreakSize(front, n) <= |front|
  {
    assert p != "" ==> p[0] in p;
  }

  lemma LastStays(front: string, m: nat)
    requires m <= |front| && front != "" && IsBreak(front[|front|-1])
    ensures front[m..] == "" || IsBreak(front[m..][|front[m..]|-1])
  {
  }

  /** Text after a line break is a line of its own. */
  lemma {:induction false} SplitThen(front: string, p: string)
    requires (front == "" || IsBreak(front[|front|-1])) && OneLine(p)
    ensures SplitLines(front + p) == SplitLines(front) + SplitLines(p)
    decreases |front|
  {
    if front == "" {
      assert front + p == p;
    } else {
      var n := |FirstLine(front)|;
      assert front[|front|-1] in front;
      FirstLineWithin(front, p);
      SameBreak(front, p, n);
      var m := n + BreakSize(front, n);
      SliceConcat(front, p, n);
      SliceConcat(front, p, m);
      LastStays(front, m);
      SplitThen(front[m..], p);
      ConcatAssoc([front[..n]], SplitLines(front[m..]), SplitLines(p));
    }
  }

  /** What follows the last line break of any kind, and what comes before that. */
  function Tail(s: string): (t: string)
    ensures |t| <= |s| && OneLine(t) && s == s[..|s|-|t|] + t
    ensures |t| == |s| || IsBreak(s[|s|-|t|-1])
  {
    if s == "" || IsBreak(s[|s|-1]) then "" else Tail(s[..|s|-1]) + [s[|s|-1]]
  }

  lemma TailAfter(front: string, p: string)
    requires (front == "" || IsBreak(front[|front|-1])) && OneLine(p)
    ensures Tail(front + p) == p
  {
    var s := front + p;
    var t := Tail(s);
    var (i, j) := (|s| - |p|, |s| - |t|);
    assert s[i..] == p && s[j..] == t;
    assert i == |front| && (i == 0 || s[i-1] == front[i-1]);
  }

  lemma {:induction false} SplitWhole(s: string)
    requires '\n' !in s
    ensures Split(s) == [s]
  {
    if s != "" {
      SplitWhole(s[1..]);
    }
  }

  lemma {:induction false} SplitJoin(a: string, rest: string)
    requires '\n' !in a
    ensures Split(a + ("\n" + rest)) == [a] + Split(rest)
  {
    var s := a + ("\n" + rest);
    if a == "" {
      assert s[1..] == rest;
    } else {
      assert s[1..] == a[1..] + ("\n" + rest) && a[0] in a;
      SplitJoin(a[1..], rest);
      assert [a[0]] + a[1..] == a;
    }
  }

  lemma {:induction false} SplitUnsplit(lines: seq<string>)
    requires lines != [] && forall line <- lines :: '\n' !in line
    ensures Split(Unsplit(lines)) == lines
  {
    if |lines| == 1 {
      SplitWhole(lines[0]);
    } else {
      assert Unsplit(lines) == lines[0] + ("\n" + Unsplit(lines[1..]));
      SplitJoin(lines[0], Unsplit(lines[1..]));
      SplitUnsplit(lines[1..]);
    }
  }

  lemma StripTight(s: string)
    requires s != "" && !IsSpace(s[0]) && !IsSpace(s[|s|-1])
    ensures Strip(s) == s
  {
  }

  function Unlines(lines: seq<string>): string { if lines == [] then "" else lines[0] + "\n" + Unlines(lines[1..]) }

  lemma {:induction false} LinesRoundTrip(lines: seq<string>)
    requires forall line <- lines :: OneLine(line)
    ensures SplitLines(Unlines(lines)) == lines
  {
    if lines != [] {
      var s := Unlines(lines);
      var rest := Unlines(lines[1..]);
      assert s == lines[0] + ("\n" + rest);
      FirstLineAll(lines[0], "\n" + rest);
      assert s[|lines[0]|+1..] == rest && s[..|lines[0]|] == lines[0];
      LinesRoundTrip(lines[1..]);
    }
  }

  lemma {:induction false} SkipBlank(a: string, rest: string)
    requires Blank(a) && (rest == "" || !IsSpace(rest[0]))
    ensures SkipSpaces(a + rest) == rest
  {
    if a == "" {
      assert a + rest == rest;
    } else {
      assert (a + rest)[1..] == a[1..] + rest;
      SkipBlank(a[1..], rest);
    }
  }

  lemma {:induction false} TrimBlank(rest: string, a: string)
    requires Blank(a) && (rest == "" || !IsSpace(rest[|rest|-1]))
    ensures TrimEnd(rest + a) == rest
  {
    if a == "" {
      assert rest + a == rest;
    } else {
      assert (rest + a)[..|rest + a| - 1] == rest + a[..|a|-1];
      TrimBlank(rest, a[..|a|-1]);
    }
  }

  lemma {:induction false} SkipSplits(s: string) returns (a: string)
    ensures Blank(a) && s == a + SkipSpaces(s)
    ensures SkipSpaces(s) == "" || !IsSpace(SkipSpaces(s)[0])
  {
    if s != "" && IsSpace(s[0]) {
      var b := SkipSplits(s[1..]);
      a := [s[0]] + b;
    } else {
      a := "";
    }
  }

  lemma {:induction false} TrimSplits(s: string) returns (a: string)
    ensures Blank(a) && s == TrimEnd(s) + a
  {
    if s != "" && IsSpace(s[|s|-1]) {
      var b := TrimSplits(s[..|s|-1]);
      a := b + [s[|s|-1]];
      assert s == s[..|s|-1] + [s[|s|-1]];
    } else {
      a := "";
    }
  }

  lemma {:induction false} UnsplitRoundTrip(lines: seq<string>)
    requires lines != [] && lines[|lines|-1] != "" && forall line <- lines :: OneLine(line)
    ensures SplitLines(Unsplit(lines)) == lines
  {
    if |lines| == 1 {
      SplitOneLine(lines[0]);
    } else {
      var (s, rest) := (Unsplit(lines), Unsplit(lines[1..]));
      assert s == lines[0] + ("\n" + rest);
      FirstLineAll(lines[0], "\n" + rest);
      assert s[|lines[0]|+1..] == rest && s[..|lines[0]|] == lines[0];
      UnsplitRoundTrip(lines[1..]);
    }
  }

  lemma {:induction false} SplitsAreLines(s: string)
    ensures forall line <- SplitLines(s) :: OneLine(line)
    decreases |s|
  {
    if s != "" {
      var n := |FirstLine(s)|;
      if n < |s| {
        SplitsAreLines(s[n + BreakSize(s, n)..]);
      }
    }
  }
}

/** Amending a commit message with the footers of rebuild branches. */
module FooterAmend {
  import opened Common
  import opened Text
  import opened Footers

  // ---------------------------------------------------------------- lines between newlines

  lemma {:induction false} InLinesConcat(kind: Kind, a: seq<string>, b: seq<string>)
    ensures InLines(kind, a + b) == InLines(kind, a) + InLines(kind, b)
  {
    if a == [] {
      assert a + b == b;
    } else {
      assert (a + b)[0] == a[0] && (a + b)[1..] == a[1..] + b;
      InLinesConcat(kind, a[1..], b);
    }
  }

  lemma NothingInBlank(kind: Kind)
    ensures LineTokens(kind, "") == {}
  {
  }

  lemma OneLineTokens(kind: Kind, s: string)
    requires OneLine(s)
    ensures Extracted(kind, s) == LineTokens(kind, s)
  {
    SplitOneLine(s);
    NothingInBlank(kind);
    assert InLines(kind, [s]) == LineTokens(kind, s) + InLines(kind, []);
  }

  lemma PeelLine(kind: Kind, s: string, n: nat)
    requires n == |FirstLine(s)| < |s|
    ensures n + BreakSize(s, n) <= |s|
    ensures Extracted(kind, s) == LineTokens(kind, s[..n]) + Extracted(kind, s[n + BreakSize(s, n)..])
  {
    var rest := SplitLines(s[n + BreakSize(s, n)..]);
    assert SplitLines(s) == [s[..n]] + rest;
    assert ([s[..n]] + rest)[1..] == rest;
  }

  lemma LastLine(kind: Kind, a: string, rest: string)
    requires OneLine(a)
    ensures Extracted(kind, a + ("\n" + rest)) == LineTokens(kind, a) + Extracted(kind, rest)
  {
    var tail := "\n" + rest;
    FirstLineAll(a, tail);
    SliceConcat(a, tail, |a|);
    assert (a + tail)[|a|] == '\n' && tail[1..] == rest;
    assert (a + tail)[|a|+1..] == (a + tail)[|a|..][1..];
    PeelLine(kind, a + tail, |a|);
  }

  lemma BreakInFirst(a: string, rest: string, n: nat)
    requires !OneLine(a) && '\n' !in a && n == |FirstLine(a)|
    ensures n < |a| && BreakSize(a, n) == 1
    ensures var s := a + ("\n" + rest);
      && |FirstLine(s)| == n && s[..n] == a[..n]
      && if a[n] == '\r' && n + 1 == |a| then BreakSize(s, n) == 2 && s[n+2..] == rest
         else BreakSize(s, n) == 1 && s[n+1..] == a[n+1..] + ("\n" + rest)
  {
    var tail := "\n" + rest;
    var s := a + tail;
    FirstLineWithin(a, tail);
    SliceConcat(a, tail, n);
    SliceConcat(a, tail, n + 1);
    assert n + 1 < |a| ==> a[n+1] in a;
    assert s[n] == a[n] && s[n+1] == if n + 1 < |a| then a[n+1] else '\n';
    assert s[n+2..] == s[n+1..][1..] && tail[1..] == rest;
  }

  /** The first line of a, when a goes on after it, is the first line of a followed by anything. */
  lemma PeelBoth(kind: Kind, a: string, rest: string, n: nat)
    requires !OneLine(a) && '\n' !in a && n == |FirstLine(a)|
    ensures n < |a| && Extracted(kind, a) == LineTokens(kind, a[..n]) + Extracted(kind, a[n+1..])
    ensures Extracted(kind, a + ("\n" + rest)) == LineTokens(kind, a[..n])
      + Extracted(kind, if a[n] == '\r' && n + 1 == |a| then rest else a[n+1..] + ("\n" + rest))
  {
    PeelShort(kind, a, n);
    PeelLong(kind, a, rest, n);
  }

  lemma PeelShort(kind: Kind, a: string, n: nat)
    requires !OneLine(a) && '\n' !in a && n == |FirstLine(a)|
    ensures n < |a| && Extracted(kind, a) == LineTokens(kind, a[..n]) + Extracted(kind, a[n+1..])
  {
    BreakInFirst(a, "", n);
    PeelLine(kind, a, n);
  }

  lemma PeelLong(kind: Kind, a: string, rest: string, n: nat)
    requires !OneLine(a) && '\n' !in a && n == |FirstLine(a)| < |a|
    ensures Extracted(kind, a + ("\n" + rest)) == LineTokens(kind, a[..n])
      + Extracted(kind, if a[n] == '\r' && n + 1 == |a| then rest else a[n+1..] + ("\n" + rest))
  {
    BreakInFirst(a, rest, n);
    PeelLine(kind, a + ("\n" + rest), n);
  }

  /** Footers do not reach over a newline. */
  lemma {:induction false} NewlineSeparates(kind: Kind, a: string, rest: string)
    requires '\n' !in a
    ensures Extracted(kind, a + ("\n" + rest)) == Extracted(kind, a) + Extracted(kind, rest)
    decreases |a|
  {
    if OneLine(a) {
      LastLine(kind, a, rest);
      OneLineTokens(kind, a);
    } else {
      var n := |FirstLine(a)|;
      PeelBoth(kind, a, rest, n);
      if n + 1 == |a| && a[n] == '\r' {
        assert a[n+1..] == "";
      } else {
        NewlineSeparates(kind, a[n+1..], rest);
      }
    }
  }

  function InAll(kind: Kind, lines: seq<string>): set<string> {
    if lines == [] then {} else Extracted(kind, lines[0]) + InAll(kind, lines[1..])
  }

  lemma {:induction false} ExtractedUnsplit(kind: Kind, lines: seq<string>)
    requires forall line <- lines :: '\n' !in line
    ensures Extracted(kind, Unsplit(lines)) == InAll(kind, lines)
  {
    if |lines| == 1 {
      assert lines[1..] == [];
    } else if lines != [] {
      assert Unsplit(lines) == lines[0] + ("\n" + Unsplit(lines[1..]));
      NewlineSeparates(kind, lines[0], Unsplit(lines[1..]));
      ExtractedUnsplit(kind, lines[1..]);
    }
  }

  // ---------------------------------------------------------------- appending to a line

  lemma UnionAssoc<T>(a: set<T>, b: set<T>, c: set<T>)
    ensures a + (b + c) == (a + b) + c
  {
  }

  lemma BreakThen(kind: Kind, front: string, p: string)
    requires (front == "" || IsBreak(front[|front|-1])) && OneLine(p)
    ensures Extracted(kind, front + p) == Extracted(kind, front) + LineTokens(kind, p)
  {
    SplitThen(front, p);
    InLinesConcat(kind, SplitLines(front), SplitLines(p));
    OneLineTokens(kind, p);
  }

  /** Appending ", x": it counts if and only if the text after the last line break is a footer. */
  lemma AppendTokens(kind: Kind, line: string, x: string)
    requires x != "" && OneLine(x) && !IsSpace(x[|x|-1])
    ensures Extracted(kind, line + ", " + x) ==
            Extracted(kind, line) + if IsFooter(kind, Strip(Tail(line))) then Tokens(kind, x) else {}
  {
    var t := Tail(line);
    var front := line[..|line|-|t|];
    assert OneLine(", ") && OneLine(t + ", " + x);
    assert line == front + t;
    assert line + ", " + x == front + (t + ", " + x);
    BreakThen(kind, front, t);
    BreakThen(kind, front, t + ", " + x);
    AppendToLine(kind, t, x);
    UnionAssoc(Extracted(kind, front), LineTokens(kind, t), if IsFooter(kind, Strip(t)) then Tokens(kind, x) else {});
  }

  lemma {:induction false} InAllConcat(kind: Kind, a: seq<string>, b: seq<string>)
    ensures InAll(kind, a + b) == InAll(kind, a) + InAll(kind, b)
  {
    if a == [] {
      assert a + b == b;
    } else {
      assert (a + b)[0] == a[0] && (a + b)[1..] == a[1..] + b;
      InAllConcat(kind, a[1..], b);
    }
  }

  function Others(lines: seq<string>, k: nat): seq<string>
    requires k < |lines|
  {
    lines[..k] + lines[k+1..]
  }

  lemma InAllUpdate(kind: Kind, lines: seq<string>, k: nat, x: string)
    requires k < |lines|
    ensures InAll(kind, lines[k := x]) == InAll(kind, Others(lines, k)) + Extracted(kind, x)
  {
    assert lines[k := x] == lines[..k] + ([x] + lines[k+1..]);
    InAllConcat(kind, lines[..k], [x] + lines[k+1..]);
    InAllConcat(kind, [x], lines[k+1..]);
    InAllConcat(kind, lines[..k], lines[k+1..]);
    assert [x][1..] == [];
  }

  // ---------------------------------------------------------------- the amend

  /** Index of the first line with the prefix, or their number. */
  function First(lines: seq<string>, prefix: string): (k: nat)
    ensures k <= |lines| && (k < |lines| ==> StartsWith(lines[k], prefix))
    ensures forall j :: 0 <= j < k ==> !StartsWith(lines[j], prefix)
  {
    if lines == [] || StartsWith(lines[0], prefix) then 0 else 1 + First(lines[1..], prefix)
  }

  predicate Before(a: string, b: string) {
    b != "" && (a == "" || a[0] < b[0] || (a[0] == b[0] && Before(a[1..], b[1..])))
  }

  function InsertName(x: string, xs: seq<string>): (r: seq<string>)
    ensures forall y :: y in r <==> y == x || y in xs
  {
    if xs == [] then [x]
    else if x == xs[0] then xs
    else if Before(x, xs[0]) then [x] + xs
    else
      assert xs == [xs[0]] + xs[1..];
      [xs[0]] + InsertName(x, xs[1..])
  }

  /** sorted(set(xs)) */
  function Sorted(xs: seq<string>): (r: seq<string>)
    ensures forall y :: y in r <==> y in xs
  {
    if xs == [] then []
    else
      assert xs == [xs[0]] + xs[1..];
      InsertName(xs[0], Sorted(xs[1..]))
  }

  lemma {:induction false} BeforeIsOrder(a: string, b: string, c: string)
    ensures Before(a, b) && Before(b, c) ==> Before(a, c)
    ensures a == b || Before(a, b) || Before(b, a)
    ensures !(Before(a, b) && Before(b, a)) && !Before(a, a)
    decreases |a| + |b|
  {
    if a != "" && b != "" {
      BeforeIsOrder(a[1..], b[1..], if c == "" then "" else c[1..]);
      if a[0] == b[0] {
        assert a == [a[0]] + a[1..] && b == [b[0]] + b[1..];
      }
    }
    BeforeSelf(a);
  }

  lemma {:induction false} BeforeSelf(a: string)
    ensures !Before(a, a)
  {
    if a != "" {
      BeforeSelf(a[1..]);
    }
  }

  predicate Ascending(xs: seq<string>) { forall i, j :: 0 <= i < j < |xs| ==> Before(xs[i], xs[j]) }

  lemma {:induction false} InsertAscends(x: string, xs: seq<string>)
    requires Ascending(xs)
    ensures Ascending(InsertName(x, xs))
  {
    if xs != [] {
      BeforeIsOrder(x, xs[0], "");
      if Before(x, xs[0]) {
        forall j | 0 < j < |xs| ensures Before(x, xs[j]) {
          BeforeIsOrder(x, xs[0], xs[j]);
        }
      } else if x != xs[0] {
        InsertAscends(x, xs[1..]);
        var rest := InsertName(x, xs[1..]);
        forall j | 0 <= j < |rest| ensures Before(xs[0], rest[j]) {
          assert rest[j] in rest;
        }
      }
    }
  }

  /** In order and without duplicates. */
  lemma {:induction false} SortedAscends(xs: seq<string>)
    ensures Ascending(Sorted(xs))
  {
    if xs != [] {
      SortedAscends(xs[1..]);
      InsertAscends(xs[0], Sorted(xs[1..]));
    }
  }

  /** Matches from left to right, none overlapping the one before. */
  function FindAll(kind: Kind, s: string): seq<string>
    decreases |s|
  {
    if s == "" then []
    else
      var n := TokenLength(kind, s);
      if n > 0 then [s[..n]] + FindAll(kind, s[n..]) else FindAll(kind, s[1..])
  }

  /** No token starts inside a token. */
  lemma {:induction false} SkipInside(kind: Kind, s: string, n: nat)
    requires n <= |s| && forall i :: 0 <= i < n ==> s[i] != Prefix(kind)[0]
    ensures Tokens(kind, s) == Tokens(kind, s[n..])
  {
    if n > 0 {
      assert s[1..][n-1..] == s[n..];
      SkipInside(kind, s[1..], n - 1);
    }
  }

  lemma {:induction false} FindAllTokens(kind: Kind, s: string)
    ensures forall t :: t in FindAll(kind, s) <==> t in Tokens(kind, s)
    decreases |s|
  {
    if s != "" {
      var n := TokenLength(kind, s);
      if n > 0 {
        InsideToken(kind, s);
        SkipInside(kind, s[1..], n - 1);
        assert s[1..][n-1..] == s[n..];
        FindAllTokens(kind, s[n..]);
      } else {
        FindAllTokens(kind, s[1..]);
      }
    }
  }

  lemma InsideToken(kind: Kind, s: string)
    requires TokenLength(kind, s) > 0
    ensures forall i :: 0 <= i < TokenLength(kind, s) - 1 ==> s[1..][i] != Prefix(kind)[0]
  {
    var p := |Prefix(kind)|;
    assert forall i :: 0 <= i < p ==> s[i] == Prefix(kind)[i];
    if kind.Jira? {
      assert forall i :: 5 <= i < TokenLength(kind, s) ==> s[i] == s[5..][i-5] && IsDigit(s[i]);
    } else {
      assert forall i :: 4 <= i < 8 ==> s[i] == s[4..][i-4] && IsDigit(s[i]);
      assert forall i :: 9 <= i < TokenLength(kind, s) ==> s[i] == s[9..][i-9] && IsDigit(s[i]);
    }
  }

  /** The footer extractors: collect over the lines, then sort without duplicates. */
  method ExtractFooters(kind: Kind, text: string) returns (found: seq<string>)
    ensures Ascending(found) && forall t :: t in found <==> t in Extracted(kind, text)
  {
    var all: seq<string> := [];
    var lines := SplitLines(text);
    for i := 0 to |lines|
      invariant forall t :: t in all <==> t in InLines(kind, lines[..i])
    {
      InLinesConcat(kind, lines[..i], [lines[i]]);
      assert lines[..i+1] == lines[..i] + [lines[i]];
      assert InLines(kind, [lines[i]]) == LineTokens(kind, lines[i]) + InLines(kind, []);
      var stripped := Strip(lines[i]);
      if IsFooter(kind, stripped) {
        FindAllTokens(kind, stripped);
        all := all + FindAll(kind, stripped);
      }
    }
    assert lines[..|lines|] == lines;
    found := Sorted(all);
    SortedAscends(all);
  }

  // What the amend keeps depends on two lines: the CVE line it rewrites and the Resolves line it extends.

  /** The rewritten CVE line carries no issue key of its own. */
  predicate CveLineLosesNothing(msg: string, cves: seq<string>) {
    var lines := Split(msg);
    var k := First(lines, "CVE:");
    cves != [] && k < |lines| ==> Extracted(Jira, lines[k]) <= InAll(Jira, Others(lines, k))
  }

  /** New keys have a footer to go to: the Resolves line ends in one, or there is no such line. */
  predicate ResolvesLineTakesMore(msg: string, keys: seq<string>) {
    var lines := Split(msg);
    var k := First(lines, "Resolves:");
    || (forall x <- keys :: x in Extracted(Jira, msg))
    || k == |lines| || IsFooter(Jira, Strip(Tail(lines[k])))
  }

  ghost predicate AreTokens(kind: Kind, xs: seq<string>) { forall x <- xs :: IsToken(kind, x) }

  ghost function Members(xs: seq<string>): set<string> { set x | x in xs }

  lemma {:induction false} FoundAreTokens(kind: Kind, s: string)
    ensures forall t <- Tokens(kind, s) :: IsToken(kind, t)
  {
    if s != "" {
      FoundAreTokens(kind, s[1..]);
      FrontIsToken(kind, s);
    }
  }

  lemma DigitsOfPrefix(s: string, n: nat)
    requires n <= |s| && DigitCount(s) >= n
    ensures DigitCount(s[..n]) == n
  {
    assert forall i :: 0 <= i < n ==> s[..n][i] == s[i];
  }

  lemma FrontIsToken(kind: Kind, s: string)
    ensures var n := TokenLength(kind, s); n > 0 ==> IsToken(kind, s[..n])
  {
    var n := TokenLength(kind, s);
    if n > 0 {
      var t := s[..n];
      var p := |Prefix(kind)|;
      assert t[..p] == s[..p];
      assert t[p..] == s[p..][..n-p];
      if kind.Jira? {
        DigitsOfPrefix(s[p..], n - p);
      } else {
        assert t[9..] == s[9..][..n-9];
        DigitsOfPrefix(s[9..], n - 9);
        YearOfPrefix(s, t);
      }
    }
  }

  lemma YearOfPrefix(s: string, t: string)
    requires 9 <= |t| <= |s| && t == s[..|t|] && DigitCount(s[4..]) == 4
    ensures DigitCount(t[4..]) == 4
  {
    assert forall i :: 0 <= i < |t| - 4 ==> t[4..][i] == s[4..][i];
  }

  lemma {:induction false} LinesHoldTokens(kind: Kind, lines: seq<string>)
    ensures forall t <- InLines(kind, lines) :: IsToken(kind, t)
  {
    if lines != [] {
      FoundAreTokens(kind, Strip(lines[0]));
      LinesHoldTokens(kind, lines[1..]);
    }
  }

  lemma {:induction false} TooShort(kind: Kind, s: string)
    requires |s| < |Prefix(kind)|
    ensures Tokens(kind, s) == {}
  {
    if s != "" {
      TooShort(kind, s[1..]);
    }
  }

  lemma CveLineTokens(all: seq<string>)
    requires AreTokens(Cve, all)
    ensures Tokens(Cve, "CVE: " + Join(all)) == Members(all)
  {
    var rest := [' '] + Join(all);
    assert "CVE: " + Join(all) == "CVE" + [':'] + rest;
    TokensSplit(Cve, "CVE", ':', rest);
    TooShort(Cve, "CVE");
    FrontTokens(Cve, ' ', Join(all));
    JoinedTokens(Cve, all);
  }

  /** A header followed by a list of tokens is one line and has nothing to strip. */
  lemma HeadedLine(kind: Kind, head: string, all: seq<string>)
    requires all != [] && AreTokens(kind, all) && head != "" && OneLine(head) && !IsSpace(head[0])
    ensures var line := head + Join(all); OneLine(line) && Strip(line) == line
  {
    var line := head + Join(all);
    JoinedOnLine(kind, all);
    assert line[0] == head[0] && line[|line|-1] == Join(all)[|Join(all)|-1];
    StripTight(line);
  }

  /** What the new CVE line holds. */
  lemma CveLine(all: seq<string>)
    requires all != [] && AreTokens(Cve, all)
    ensures var line := "CVE: " + Join(all);
      && OneLine(line) && Extracted(Cve, line) == Members(all) && Extracted(Jira, line) == {}
      && !StartsWith(line, "Resolves:")
  {
    var line := "CVE: " + Join(all);
    HeadedLine(Cve, "CVE: ", all);
    CveLineTokens(all);
    OneLineTokens(Cve, line);
    OneLineTokens(Jira, line);
    assert line[..4] == "CVE:";
    CvePrefix(line);
  }

  /** The message's CVE line, if it has one, takes the rebuild CVEs; other messages keep theirs. */
  method AddCves(msg: string, cves: seq<string>) returns (lines: seq<string>)
    requires AreTokens(Cve, cves)
    ensures Sharing(Split(msg), lines)
    ensures InAll(Cve, lines) == Extracted(Cve, msg) + if First(Split(msg), "CVE:") < |lines| then Members(cves) else {}
    ensures InAll(Jira, lines) <= Extracted(Jira, msg)
    ensures InAll(Jira, lines) == Extracted(Jira, msg) <==> CveLineLosesNothing(msg, cves)
    ensures OnlyCveLine(msg, cves, lines)
  {
    lines := Split(msg);
    ExtractedUnsplit(Cve, lines);
    ExtractedUnsplit(Jira, lines);
    var k := First(lines, "CVE:");
    if cves != [] && k < |lines| {
      var existing := ExtractFooters(Cve, msg);
      LinesHoldTokens(Cve, SplitLines(msg));
      var all := Sorted(existing + cves);
      NewCveLine(lines, k, all);
      SortedAscends(existing + cves);
      lines := lines[k := "CVE: " + Join(all)];
    }
  }

  ghost predicate IsCveLine(line: string, ids: set<string>) {
    exists all :: Ascending(all) && Members(all) == ids && line == "CVE: " + Join(all)
  }

  /** All lines stay, except that the first CVE line now lists all ids in order, if there are new ones. */
  ghost predicate OnlyCveLine(msg: string, cves: seq<string>, lines: seq<string>) {
    var (before, k) := (Split(msg), First(Split(msg), "CVE:"));
    && |lines| == |before| && (forall i :: 0 <= i < |lines| && (i != k || cves == []) ==> lines[i] == before[i])
    && (k < |lines| && cves != [] ==> IsCveLine(lines[k], Extracted(Cve, msg) + Members(cves)))
  }

  /** All lines stay, except that the first Resolves line, or a new last one, takes the extra keys. */
  predicate OnlyResolvesLine(before: seq<string>, extra: seq<string>, after: seq<string>) {
    var k := First(before, "Resolves:");
    if extra == [] then after == before
    else if k == |before| then after == before + ["Resolves: " + Join(extra)]
    else
      && |after| == |before| && after[k] == before[k] + ", " + Join(extra)
      && forall i :: 0 <= i < |before| && i != k ==> after[i] == before[i]
  }

  /** The amended lines: first the CVE line, then the Resolves line, with what the message did not have. */
  ghost predicate AmendedLines(msg: string, keys: seq<string>, cves: seq<string>, after: seq<string>) {
    exists lines, extra :: OnlyCveLine(msg, cves, lines) && OnlyResolvesLine(lines, extra, after)
      && Ascending(extra) && Members(extra) == Members(keys) - Extracted(Jira, msg)
  }

  /** The lines still are lines, and the first Resolves line is the same. */
  ghost predicate Sharing(before: seq<string>, after: seq<string>) {
    && |after| == |before| && (forall line <- after :: '\n' !in line)
    && First(after, "Resolves:") == First(before, "Resolves:")
    && (First(after, "Resolves:") < |after| ==> after[First(after, "Resolves:")] == before[First(after, "Resolves:")])
  }

  lemma {:induction false} FirstKept(lines: seq<string>, k: nat, line: string)
    requires k < |lines| && !StartsWith(lines[k], "Resolves:") && !StartsWith(line, "Resolves:")
    ensures First(lines[k := line], "Resolves:") == First(lines, "Resolves:") != k
  {
    if k > 0 {
      assert lines[k := line][1..] == lines[1..][k-1 := line];
      if !StartsWith(lines[0], "Resolves:") {
        FirstKept(lines[1..], k - 1, line);
      }
    } else {
      assert lines[k := line][1..] == lines[1..];
    }
  }

  lemma ReplaceLine(kind: Kind, lines: seq<string>, k: nat, line: string)
    requires k < |lines|
    ensures InAll(kind, lines[k := line]) == InAll(kind, Others(lines, k)) + Extracted(kind, line)
    ensures InAll(kind, lines) == InAll(kind, Others(lines, k)) + Extracted(kind, lines[k])
  {
    InAllUpdate(kind, lines, k, line);
    InAllUpdate(kind, lines, k, lines[k]);
    assert lines[k := lines[k]] == lines;
  }

  lemma SharesOthers(lines: seq<string>, k: nat, line: string)
    requires k < |lines| && !StartsWith(lines[k], "Resolves:") && !StartsWith(line, "Resolves:")
    requires '\n' !in line && forall l <- lines :: '\n' !in l
    ensures Sharing(lines, lines[k := line])
  {
    FirstKept(lines, k, line);
  }

  lemma CvePrefix(line: string)
    requires StartsWith(line, "CVE:")
    ensures !StartsWith(line, "Resolves:") && !StartsWith(line, "Related:")
  {
    assert line[..4][0] == 'C' && line[0] == 'C';
    assert |line| >= 9 ==> line[..9][0] == 'C';
    assert |line| >= 8 ==> line[..8][0] == 'C';
  }

  lemma NewCveLine(lines: seq<string>, k: nat, all: seq<string>)
    requires k < |lines| && StartsWith(lines[k], "CVE:") && all != [] && AreTokens(Cve, all)
    requires (forall line <- lines :: '\n' !in line) && InAll(Cve, lines) <= Members(all)
    ensures var after := lines[k := "CVE: " + Join(all)];
      && Sharing(lines, after) && InAll(Cve, after) == Members(all)
      && InAll(Jira, after) == InAll(Jira, Others(lines, k))
    ensures InAll(Jira, lines) == InAll(Jira, Others(lines, k)) + Extracted(Jira, lines[k])
  {
    var line := "CVE: " + Join(all);
    CveLine(all);
    CvePrefix(lines[k]);
    SharesOthers(lines, k, line);
    ReplaceLine(Cve, lines, k, line);
    ReplaceLine(Jira, lines, k, line);
  }

  // ---------------------------------------------------------------- the Resolves line

  lemma MembersSnoc(xs: seq<string>, x: string)
    ensures Members(xs + [x]) == Members(xs) + {x}
  {
  }

  /** The rebuild keys the message does not have yet. */
  method ExtraKeys(msg: string, keys: seq<string>) returns (extra: seq<string>)
    ensures Ascending(extra) && Members(extra) == Members(keys) - Extracted(Jira, msg)
  {
    var already := ExtractFooters(Jira, msg);
    var left: seq<string> := [];
    for i := 0 to |keys|
      invariant Members(left) == Members(keys[..i]) - Extracted(Jira, msg)
    {
      assert keys[..i+1] == keys[..i] + [keys[i]];
      MembersSnoc(keys[..i], keys[i]);
      MembersSnoc(left, keys[i]);
      if keys[i] !in already {
        left := left + [keys[i]];
      }
    }
    assert keys[..|keys|] == keys;
    extra := Sorted(left);
    SortedAscends(left);
  }

  lemma ResolvesLineTokens(extra: seq<string>)
    requires AreTokens(Jira, extra)
    ensures Tokens(Jira, "Resolves: " + Join(extra)) == Members(extra)
  {
    var rest := [' '] + Join(extra);
    assert "Resolves: " + Join(extra) == "Resolves" + [':'] + rest;
    TokensSplit(Jira, "Resolves", ':', rest);
    NoResolvesToken();
    FrontTokens(Jira, ' ', Join(extra));
    JoinedTokens(Jira, extra);
  }

  lemma NoResolvesToken()
    ensures Tokens(Jira, "Resolves") == {}
  {
    var s := "Resolves";
    assert s[..5] == "Resol" && s[1..] == "esolves";
    NoneWithout(Jira, s[1..]);
  }

  /** What a new Resolves line holds. */
  lemma ResolvesLine(extra: seq<string>)
    requires extra != [] && AreTokens(Jira, extra)
    ensures var line := "Resolves: " + Join(extra);
      OneLine(line) && Extracted(Jira, line) == Members(extra) && Extracted(Cve, line) == {}
  {
    var line := "Resolves: " + Join(extra);
    HeadedLine(Jira, "Resolves: ", extra);
    ResolvesLineTokens(extra);
    OneLineTokens(Jira, line);
    OneLineTokens(Cve, line);
    assert line[..9] == "Resolves:" && line[..4][0] == 'R';
  }

  /** Extending a line that is there, or adding one. */
  method AddKeys(lines: seq<string>, extra: seq<string>) returns (after: seq<string>)
    requires lines != [] && (forall line <- lines :: '\n' !in line) && AreTokens(Jira, extra)
    ensures after != [] && forall line <- after :: '\n' !in line
    ensures InAll(Cve, after) == InAll(Cve, lines)
    ensures var k := First(lines, "Resolves:");
      InAll(Jira, after) == InAll(Jira, lines)
        + if k == |lines| || IsFooter(Jira, Strip(Tail(lines[k]))) then Members(extra) else {}
    ensures OnlyResolvesLine(lines, extra, after)
  {
    if extra == [] {
      return lines;
    }
    var k := First(lines, "Resolves:");
    if k < |lines| {
      var line := lines[k] + ", " + Join(extra);
      JoinedOnLine(Jira, extra);
      LongerFor(Jira, lines, k, Join(extra));
      LongerFor(Cve, lines, k, Join(extra));
      ListTokens(extra);
      NoNewline(lines[k], Join(extra));
      after := lines[k := line];
    } else {
      var line := "Resolves: " + Join(extra);
      ResolvesLine(extra);
      InAllConcat(Jira, lines, [line]);
      InAllConcat(Cve, lines, [line]);
      assert [line][1..] == [];
      after := lines + [line];
    }
  }

  lemma NoNewline(line: string, x: string)
    requires '\n' !in line && OneLine(x)
    ensures '\n' !in line + ", " + x
  {
    assert IsBreak('\n') && '\n' !in x;
  }

  lemma ListTokens(extra: seq<string>)
    requires extra != [] && AreTokens(Jira, extra)
    ensures Tokens(Jira, Join(extra)) == Members(extra) && Tokens(Cve, Join(extra)) == {}
  {
    JoinedTokens(Jira, extra);
    JoinedChars(Jira, extra);
    NoneWithout(Cve, Join(extra));
  }

  lemma LongerFor(kind: Kind, lines: seq<string>, k: nat, x: string)
    requires k < |lines| && x != "" && OneLine(x) && !IsSpace(x[|x|-1])
    ensures InAll(kind, lines[k := lines[k] + ", " + x]) ==
            InAll(kind, lines) + if IsFooter(kind, Strip(Tail(lines[k]))) then Tokens(kind, x) else {}
  {
    var longer := lines[k] + ", " + x;
    AppendTokens(kind, lines[k], x);
    ReplaceLine(kind, lines, k, longer);
    UnionAssoc(InAll(kind, Others(lines, k)), Extracted(kind, lines[k]),
               if IsFooter(kind, Strip(Tail(lines[k]))) then Tokens(kind, x) else {});
  }

  /** The message of the amended commit. CVE ids are joined whenever the message has a CVE line; issue keys
      are joined if and only if the rewritten CVE line loses none and the Resolves line can take more. */
  method AmendMessage(msg: string, keys: seq<string>, cves: seq<string>) returns (amended: string)
    requires AreTokens(Jira, keys) && AreTokens(Cve, cves)
    ensures Extracted(Cve, amended) ==
            Extracted(Cve, msg) + if First(Split(msg), "CVE:") < |Split(msg)| then Members(cves) else {}
    ensures Extracted(Jira, amended) == Extracted(Jira, msg) + Members(keys)
            <==> CveLineLosesNothing(msg, cves) && ResolvesLineTakesMore(msg, keys)
    ensures AmendedLines(msg, keys, cves, Split(amended))
  {
    var extra := ExtraKeys(msg, keys);
    var lines := AddCves(msg, cves);
    ExtraTokens(keys, extra);
    var after := AddKeys(lines, extra);
    ExtractedUnsplit(Cve, after);
    ExtractedUnsplit(Jira, after);
    UnionIff(msg, keys, cves, extra, lines, after);
    amended := Unsplit(after);
    SplitUnsplit(after);
    AmendedIs(msg, keys, cves, lines, extra, after);
  }

  lemma ExtraTokens(keys: seq<string>, extra: seq<string>)
    requires AreTokens(Jira, keys) && Members(extra) <= Members(keys)
    ensures AreTokens(Jira, extra)
  {
    forall x <- extra ensures IsToken(Jira, x) {
      assert x in Members(extra);
    }
  }

  lemma AmendedIs(msg: string, keys: seq<string>, cves: seq<string>, lines: seq<string>, extra: seq<string>, after: seq<string>)
    requires OnlyCveLine(msg, cves, lines) && OnlyResolvesLine(lines, extra, after)
    requires Ascending(extra) && Members(extra) == Members(keys) - Extracted(Jira, msg)
    ensures AmendedLines(msg, keys, cves, after)
  {
  }

  lemma UnionIff(msg: string, keys: seq<string>, cves: seq<string>, extra: seq<string>, lines: seq<string>, after: seq<string>)
    requires Sharing(Split(msg), lines) && Members(extra) == Members(keys) - Extracted(Jira, msg)
    requires InAll(Jira, lines) <= Extracted(Jira, msg)
    requires InAll(Jira, lines) == Extracted(Jira, msg) <==> CveLineLosesNothing(msg, cves)
    requires var k := First(lines, "Resolves:");
      InAll(Jira, after) == InAll(Jira, lines)
        + if k == |lines| || IsFooter(Jira, Strip(Tail(lines[k]))) then Members(extra) else {}
    ensures InAll(Jira, after) == Extracted(Jira, msg) + Members(keys)
            <==> CveLineLosesNothing(msg, cves) && ResolvesLineTakesMore(msg, keys)
  {
    var had := Extracted(Jira, msg);
    var k := First(lines, "Resolves:");
    assert (forall x <- keys :: x in had) <==> Members(extra) == {} by {
      if x :| x in keys && x !in had {
        assert x in Members(extra);
      }
    }
    JoinedIff(had, InAll(Jira, lines), Members(keys), k == |lines| || IsFooter(Jira, Strip(Tail(lines[k]))));
  }

  lemma JoinedIff(had: set<string>, kept: set<string>, keys: set<string>, taken: bool)
    requires kept <= had
    ensures kept + (if taken then keys - had else {}) == had + keys <==> kept == had && (keys - had == {} || taken)
  {
    var after := kept + (if taken then keys - had else {});
    assert after * had == kept && (had + keys) * had == had;
    assert had + keys == had + (keys - had);
    if !taken && after == had + keys {
      assert keys - had <= kept;
    }
  }

  // ---------------------------------------------------------------- which messages are safe

  lemma StartsFlush(line: string, prefix: string)
    requires StartsWith(line, prefix) && prefix != "" && !IsSpace(prefix[0]) && forall c <- prefix :: !IsSpace(c)
    ensures StartsWith(Strip(line), prefix) && line[0] == prefix[0]
  {
    assert line[..|prefix|][0] == line[0];
    TrimStarts(line, prefix);
  }

  lemma PlainCve(line: string)
    requires StartsWith(line, "CVE:") && OneLine(line)
    ensures Extracted(Jira, line) == {}
  {
    StartsFlush(line, "CVE:");
    CvePrefix(Strip(line));
    OneLineTokens(Jira, line);
  }

  lemma PlainResolves(line: string)
    requires StartsWith(line, "Resolves:") && OneLine(line)
    ensures IsFooter(Jira, Strip(Tail(line)))
  {
    TailAfter("", line);
    assert "" + line == line;
    StartsFlush(line, "Resolves:");
  }

  /** Messages in which lines end with "\n" only: their footers are always joined. */
  lemma PlainMessagesJoin(msg: string, keys: seq<string>, cves: seq<string>)
    requires forall line <- Split(msg) :: OneLine(line)
    ensures CveLineLosesNothing(msg, cves) && ResolvesLineTakesMore(msg, keys)
  {
    var lines := Split(msg);
    var (c, k) := (First(lines, "CVE:"), First(lines, "Resolves:"));
    if c < |lines| {
      PlainCve(lines[c]);
    }
    if k < |lines| {
      PlainResolves(lines[k]);
    }
  }

  /** A line that ends in a carriage return, followed by text that is no footer. */
  lemma HiddenTail(line: string, note: string, have: set<string>)
    requires OneLine(line) && Extracted(Jira, line) == have && StartsWith(line, "Resolves:")
    requires OneLine(note) && !IsFooter(Jira, Strip(note))
    ensures var msg := line + "\r" + note;
      Extracted(Jira, msg) == have && Split(msg) == [msg] && First([msg], "Resolves:") == 0 && Tail(msg) == note
  {
    var front := line + "\r";
    var msg := front + note;
    FirstLineAll(line, "\r");
    PeelLine(Jira, front, |line|);
    assert front[..|line|] == line && front[|line|+1..] == "";
    OneLineTokens(Jira, line);
    BreakThen(Jira, front, note);
    SplitWhole(msg);
    assert msg[..9] == line[..9];
    TailAfter(front, note);
  }

  /** A carriage return in the Resolves line, followed by text that is no footer: the new key lands behind
      that text and is lost. */
  lemma CarriageReturnLosesKey(key: string, newKey: string, note: string)
    requires IsToken(Jira, key) && IsToken(Jira, newKey) && key != newKey
    requires OneLine(note) && !IsFooter(Jira, Strip(note))
    ensures !ResolvesLineTakesMore("Resolves: " + key + "\r" + note, [newKey])
  {
    var line := "Resolves: " + key;
    assert Join([key]) == key;
    ResolvesLine([key]);
    assert line[..9] == "Resolves:";
    assert Members([key]) == {key};
    HiddenTail(line, note, {key});
    assert newKey in [newKey];
  }

  lemma FooterBehind(front: string, key: string)
    requires front != "" && IsBreak(front[|front|-1]) && '\n' !in front && IsToken(Jira, key)
    ensures var msg := front + ("Resolves: " + key); key in Extracted(Jira, msg) && Split(msg) == [msg]
  {
    var footer := "Resolves: " + key;
    assert Join([key]) == key;
    ResolvesLine([key]);
    OneLineTokens(Jira, footer);
    assert key in Members([key]);
    BreakThen(Jira, front, footer);
    SplitWhole(front + footer);
  }

  lemma OnlyLine(msg: string, cves: seq<string>)
    requires Split(msg) == [msg] && StartsWith(msg, "CVE:") && cves != []
    ensures CveLineLosesNothing(msg, cves) <==> Extracted(Jira, msg) == {}
  {
    assert First([msg], "CVE:") == 0 && Others([msg], 0) == [];
  }

  /** A carriage return in the CVE line, followed by a Resolves footer: rewriting the line drops the footer. */
  lemma CveLineLosesKey(text: string, key: string, newCve: string)
    requires OneLine(text) && IsToken(Jira, key)
    ensures !CveLineLosesNothing("CVE:" + text + "\r" + ("Resolves: " + key), [newCve])
  {
    var front := "CVE:" + text + "\r";
    var msg := front + ("Resolves: " + key);
    FooterBehind(front, key);
    assert msg[..4] == "CVE:";
    OnlyLine(msg, [newCve]);
  }
}

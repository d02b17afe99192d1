/** Issue keys and CVE ids in commit message footers, and the amend that adds more of them. */
module Footers {
  import opened Text

  /** RHEL-<digits>, or CVE-<four digits>-<four or more digits>. */
  datatype Kind = Jira | Cve

  // ---------------------------------------------------------------- tokens in a line

  function Prefix(kind: Kind): string { if kind.Jira? then "RHEL-" else "CVE-" }

  function DigitCount(s: string): (n: nat)
    ensures n <= |s| && (forall i :: 0 <= i < n ==> IsDigit(s[i])) && (n < |s| ==> !IsDigit(s[n]))
  {
    if s != "" && IsDigit(s[0]) then 1 + DigitCount(s[1..]) else 0
  }

  /** Length of the token at the front of s, 0 if there is none. */
  function TokenLength(kind: Kind, s: string): (n: nat)
    ensures n <= |s|
  {
    if !StartsWith(s, Prefix(kind)) then 0
    else match kind
      case Jira =>
        var n := DigitCount(s[5..]);
        if n == 0 then 0 else 5 + n
      case Cve =>
        var year := DigitCount(s[4..]);
        if year != 4 || |s| == 8 || s[8] != '-' then 0
        else
          var n := DigitCount(s[9..]);
          if n < 4 then 0 else 9 + n
  }

  /** All tokens of the line. */
  function Tokens(kind: Kind, s: string): set<string> {
    if s == "" then {} else (if TokenLength(kind, s) > 0 then {s[..TokenLength(kind, s)]} else {}) + Tokens(kind, s[1..])
  }

  predicate TokenChar(c: char) {
    IsDigit(c) || c == 'R' || c == 'H' || c == 'E' || c == 'L' || c == 'C' || c == 'V' || c == '-'
  }

  predicate IsToken(kind: Kind, t: string) { t != "" && TokenLength(kind, t) == |t| }

  lemma {:induction false} DigitsEndAt(a: string, c: char, b: string)
    requires !IsDigit(c)
    ensures DigitCount(a + [c] + b) == DigitCount(a)
  {
    if a == "" {
      assert a + [c] + b == [c] + b;
    } else {
      assert (a + [c] + b)[1..] == a[1..] + [c] + b;
      DigitsEndAt(a[1..], c, b);
    }
  }

  lemma StartsBefore(a: string, c: char, b: string, prefix: string)
    requires c !in prefix
    ensures StartsWith(a + [c] + b, prefix) == StartsWith(a, prefix)
  {
    var s := a + [c] + b;
    if |a| < |prefix| <= |s| {
      assert s[..|prefix|][|a|] == c;
    } else if |prefix| <= |a| {
      assert s[..|prefix|] == a[..|prefix|];
    }
  }

  lemma {:induction false} AllDigits(s: string)
    ensures DigitCount(s) == |s| <==> OnlyDigits(s)
  {
    if s != "" {
      AllDigits(s[1..]);
      assert s == [s[0]] + s[1..];
    }
  }

  /** An issue key is "RHEL-" and digits, a CVE id "CVE-", four digits, "-" and four digits or more. */
  lemma TokenIs(t: string)
    ensures IsToken(Jira, t) <==> |t| >= 6 && t[..5] == "RHEL-" && OnlyDigits(t[5..])
    ensures IsToken(Cve, t) <==> |t| >= 13 && t[..4] == "CVE-" && OnlyDigits(t[4..8]) && t[8] == '-' && OnlyDigits(t[9..])
  {
    if |t| >= 5 {
      AllDigits(t[5..]);
    }
    if |t| >= 9 {
      AllDigits(t[9..]);
      assert t[4..8] == t[4..][..4];
      assert t[4..][4] == t[8];
    }
  }

  /** A token never reaches over a character that cannot be part of one. */
  lemma TokenEndsAt(kind: Kind, a: string, c: char, b: string)
    requires !TokenChar(c)
    ensures TokenLength(kind, a + [c] + b) == TokenLength(kind, a)
  {
    var s := a + [c] + b;
    StartsBefore(a, c, b, Prefix(kind));
    if StartsWith(a, Prefix(kind)) {
      var p := |Prefix(kind)|;
      assert s[p..] == a[p..] + [c] + b;
      DigitsEndAt(a[p..], c, b);
      if kind.Cve? && DigitCount(a[4..]) == 4 && |a| > 8 {
        assert s[9..] == a[9..] + [c] + b;
        DigitsEndAt(a[9..], c, b);
      }
    }
  }

  lemma FrontSplit(kind: Kind, a: string, c: char, b: string)
    requires !TokenChar(c)
    ensures var (s, n) := (a + [c] + b, TokenLength(kind, a));
      && TokenLength(kind, s) == n && s[..n] == a[..n] && s[1..] == if a == "" then b else a[1..] + [c] + b
  {
    TokenEndsAt(kind, a, c, b);
  }

  lemma {:induction false} TokensSplit(kind: Kind, a: string, c: char, b: string)
    requires !TokenChar(c)
    ensures Tokens(kind, a + [c] + b) == Tokens(kind, a) + Tokens(kind, b)
  {
    FrontSplit(kind, a, c, b);
    if a != "" {
      TokensSplit(kind, a[1..], c, b);
    }
  }

  lemma {:induction false} BlankHasNone(kind: Kind, s: string)
    requires forall c <- s :: !TokenChar(c)
    ensures Tokens(kind, s) == {}
  {
    if s != "" {
      TokensSplit(kind, "", s[0], s[1..]);
      assert "" + [s[0]] + s[1..] == s;
      BlankHasNone(kind, s[1..]);
    }
  }

  lemma {:induction false} NoneWithout(kind: Kind, s: string)
    requires Prefix(kind)[0] !in s
    ensures Tokens(kind, s) == {}
  {
    if s != "" {
      NoneWithout(kind, s[1..]);
    }
  }

  /** A token is the only one in itself, and holds none of the other kind. */
  lemma TokenAlone(kind: Kind, t: string)
    requires IsToken(kind, t)
    ensures Tokens(kind, t) == {t} && Prefix(if kind.Jira? then Cve else Jira)[0] !in t
    ensures forall c <- t :: TokenChar(c)
  {
    var p := |Prefix(kind)|;
    assert forall i :: 0 <= i < p ==> t[i] == t[..p][i] == Prefix(kind)[i];
    if kind.Jira? {
      assert forall i :: 5 <= i < |t| ==> t[i] == t[5..][i-5] && IsDigit(t[i]);
    } else {
      assert forall i :: 4 <= i < 8 ==> t[i] == t[4..][i-4] && IsDigit(t[i]);
      assert forall i :: 9 <= i < |t| ==> t[i] == t[9..][i-9] && IsDigit(t[i]);
    }
    NoneWithout(kind, t[1..]);
    assert t[..|t|] == t;
  }

  function Join(xs: seq<string>): string {
    if xs == [] then "" else if |xs| == 1 then xs[0] else xs[0] + ", " + Join(xs[1..])
  }

  lemma CommaTokens(kind: Kind, a: string, x: string)
    ensures Tokens(kind, a + ", " + x) == Tokens(kind, a) + Tokens(kind, x)
  {
    var rest := [' '] + x;
    assert a + ", " + x == a + [','] + rest;
    TokensSplit(kind, a, ',', rest);
    FrontTokens(kind, ' ', x);
  }

  lemma FrontTokens(kind: Kind, c: char, x: string)
    requires !TokenChar(c)
    ensures Tokens(kind, [c] + x) == Tokens(kind, x)
  {
    var none: string := [];
    TokensSplit(kind, none, c, x);
    assert none + [c] + x == [c] + x;
  }

  lemma {:induction false} JoinedTokens(kind: Kind, xs: seq<string>)
    requires forall x <- xs :: IsToken(kind, x)
    ensures Tokens(kind, Join(xs)) == set x | x in xs
  {
    if xs != [] {
      TokenAlone(kind, xs[0]);
      assert xs == [xs[0]] + xs[1..];
      if |xs| > 1 {
        JoinedTokens(kind, xs[1..]);
        CommaTokens(kind, xs[0], Join(xs[1..]));
      }
    }
  }

  /** A list of tokens stays on its line, ends in no blank and holds no token of the other kind. */
  lemma {:induction false} JoinedChars(kind: Kind, xs: seq<string>)
    requires xs != [] && forall x <- xs :: IsToken(kind, x)
    ensures var (j, other) := (Join(xs), Prefix(if kind.Jira? then Cve else Jira)[0]);
      j != "" && TokenChar(j[|j|-1]) && other !in j && forall c <- j :: TokenChar(c) || c == ',' || c == ' '
  {
    TokenAlone(kind, xs[0]);
    if |xs| > 1 {
      JoinedChars(kind, xs[1..]);
    }
  }

  lemma NotBreak(c: char)
    requires TokenChar(c) || c == ',' || c == ' '
    ensures !IsBreak(c) && (TokenChar(c) ==> !IsSpace(c))
  {
  }

  lemma JoinedOnLine(kind: Kind, xs: seq<string>)
    requires xs != [] && forall x <- xs :: IsToken(kind, x)
    ensures var j := Join(xs); OneLine(j) && j != "" && !IsSpace(j[|j|-1])
  {
    var j := Join(xs);
    JoinedChars(kind, xs);
    forall c <- j ensures !IsBreak(c) {
      NotBreak(c);
    }
    NotBreak(j[|j|-1]);
  }

  // ---------------------------------------------------------------- footer lines

  predicate IsFooter(kind: Kind, s: string) {
    if kind.Cve? then StartsWith(s, "CVE:") else StartsWith(s, "Resolves:") || StartsWith(s, "Related:")
  }

  function LineTokens(kind: Kind, line: string): set<string> {
    if IsFooter(kind, Strip(line)) then Tokens(kind, Strip(line)) else {}
  }

  function InLines(kind: Kind, lines: seq<string>): set<string> {
    if lines == [] then {} else LineTokens(kind, lines[0]) + InLines(kind, lines[1..])
  }

  /** What the footers of a text hold. */
  function Extracted(kind: Kind, text: string): set<string> { InLines(kind, SplitLines(text)) }

  lemma SpaceAfter(kind: Kind, s: string, space: char)
    requires IsSpace(space)
    ensures Tokens(kind, s + [space]) == Tokens(kind, s)
  {
    TokensSplit(kind, s, space, "");
    assert s + [space] == s + [space] + "";
  }

  lemma {:induction false} TrimTokens(kind: Kind, s: string)
    ensures Tokens(kind, TrimEnd(s)) == Tokens(kind, s)
  {
    if s != "" && IsSpace(s[|s|-1]) {
      var (front, last) := (s[..|s|-1], s[|s|-1]);
      TrimTokens(kind, front);
      SpaceAfter(kind, front, last);
      assert s == front + [last];
    }
  }

  lemma {:induction false} TrimStarts(s: string, prefix: string)
    requires forall c <- prefix :: !IsSpace(c)
    ensures StartsWith(TrimEnd(s), prefix) == StartsWith(s, prefix)
  {
    if s != "" && IsSpace(s[|s|-1]) {
      var front := s[..|s|-1];
      TrimStarts(front, prefix);
      if |s| == |prefix| {
        assert s[..|prefix|] == s && s[|s|-1] in s;
      } else if |prefix| < |s| {
        assert s[..|prefix|] == front[..|prefix|];
      }
    }
  }

  lemma {:induction false} SkipAppends(p: string, x: string)
    requires x != "" && !IsSpace(x[0])
    ensures SkipSpaces(p + x) == SkipSpaces(p) + x
  {
    if p == "" {
      assert p + x == x;
    } else {
      assert (p + x)[1..] == p[1..] + x;
      if IsSpace(p[0]) {
        SkipAppends(p[1..], x);
      }
    }
  }

  lemma FooterWhole(kind: Kind, s: string)
    ensures IsFooter(kind, TrimEnd(s)) == IsFooter(kind, s)
  {
    TrimStarts(s, "CVE:");
    TrimStarts(s, "Resolves:");
    TrimStarts(s, "Related:");
  }

  /** A CVE footer begins with "CVE:", one for issue keys with "Resolves:" or "Related:"; blanks before it do not matter. */
  lemma FooterHeads(kind: Kind, s: string)
    ensures LineTokens(kind, s) == if kind.Cve? && Begins(s, "CVE:") then Tokens(Cve, s)
                                   else if kind.Jira? && (Begins(s, "Resolves:") || Begins(s, "Related:")) then Tokens(Jira, s) else {}
  {
    FooterWhole(kind, SkipSpaces(s));
    TrimTokens(kind, SkipSpaces(s));
    SkipTokens(kind, s);
    BeginsSkipped(s, "CVE:");
    BeginsSkipped(s, "Resolves:");
    BeginsSkipped(s, "Related:");
  }

  /** The prefix stands in s after nothing but blanks. */
  ghost predicate Begins(s: string, prefix: string) {
    exists n :: 0 <= n && n + |prefix| <= |s| && Blank(s[..n]) && s[n..n+|prefix|] == prefix
  }

  lemma {:induction false} SkipIs(s: string) returns (n: nat)
    ensures n <= |s| && Blank(s[..n]) && SkipSpaces(s) == s[n..]
  {
    n := 0;
    if s != "" && IsSpace(s[0]) {
      n := SkipIs(s[1..]);
      assert s[..n+1] == [s[0]] + s[1..][..n] && s[n+1..] == s[1..][n..];
      n := n + 1;
    }
  }

  lemma BeginsSkipped(s: string, prefix: string)
    requires prefix != "" && !IsSpace(prefix[0])
    ensures StartsWith(SkipSpaces(s), prefix) <==> Begins(s, prefix)
  {
    if StartsWith(SkipSpaces(s), prefix) {
      var n := SkipIs(s);
      assert s[n..n+|prefix|] == s[n..][..|prefix|];
    }
    if Begins(s, prefix) {
      var n :| 0 <= n && n + |prefix| <= |s| && Blank(s[..n]) && s[n..n+|prefix|] == prefix;
      assert s == s[..n] + s[n..] && s[n..][..|prefix|] == prefix && s[n..][0] == prefix[0];
      SkipBlank(s[..n], s[n..]);
    }
  }

  lemma {:induction false} SkipTokens(kind: Kind, s: string)
    ensures Tokens(kind, SkipSpaces(s)) == Tokens(kind, s)
  {
    if s != "" && IsSpace(s[0]) {
      SkipTokens(kind, s[1..]);
      FrontTokens(kind, s[0], s[1..]);
      assert [s[0]] + s[1..] == s;
    }
  }

  lemma FooterBefore(kind: Kind, a: string, b: string)
    ensures IsFooter(kind, a + "," + b) == IsFooter(kind, a)
  {
    StartsBefore(a, ',', b, "CVE:");
    StartsBefore(a, ',', b, "Resolves:");
    StartsBefore(a, ',', b, "Related:");
  }

  lemma StripAppended(p: string, x: string)
    requires x != "" && !IsSpace(x[|x|-1])
    ensures Strip(p + ", " + x) == SkipSpaces(p) + ", " + x
  {
    var tail := ", " + x;
    assert p + ", " + x == p + tail && SkipSpaces(p) + ", " + x == SkipSpaces(p) + tail;
    SkipAppends(p, tail);
    assert (SkipSpaces(p) + tail)[|SkipSpaces(p) + tail| - 1] == x[|x|-1];
  }

  /** Appending ", x" to a line: a footer line gains the tokens of x, any other line nothing. */
  lemma AppendToLine(kind: Kind, p: string, x: string)
    requires x != "" && !IsSpace(x[|x|-1])
    ensures LineTokens(kind, p + ", " + x) ==
            LineTokens(kind, p) + if IsFooter(kind, Strip(p)) then Tokens(kind, x) else {}
  {
    var q := SkipSpaces(p);
    StripAppended(p, x);
    FooterWhole(kind, q);
    TrimTokens(kind, q);
    assert q + ", " + x == q + "," + (" " + x);
    FooterBefore(kind, q, " " + x);
    CommaTokens(kind, q, x);
  }
}

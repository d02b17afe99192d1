/** The footers of a retargeted message. */
module RetargetMessage {
  import opened Common
  import opened Text
  import opened Attribution
  import opened Retarget

  // ---------------------------------------------------------------- which keys a message resolves

  /** What follows a list mark and blanks, if there is one. */
  function AfterMark(t: string): string { if t != "" && (t[0] == '-' || t[0] == '*') then SkipSpaces(t[1..]) else t }

  /** What follows "Resolves:" on a footer line, which may be indented or a list item. */
  function FooterRest(line: string): Option<string> {
    var u := AfterMark(SkipSpaces(line));
    if |u| >= 9 && Lower(u[..9]) == "resolves:" then Some(u[9..]) else None
  }

  function SkipBlankLines(lines: seq<string>): (r: seq<string>)
    ensures |r| <= |lines|
  {
    if lines != [] && Blank(lines[0]) then SkipBlankLines(lines[1..]) else lines
  }

  /** The footer values; one that is blank on its line is the next line that is not. */
  function Values(lines: seq<string>): seq<string>
    decreases |lines|
  {
    if lines == [] then []
    else match FooterRest(lines[0])
      case None => Values(lines[1..])
      case Some(rest) =>
        if !Blank(rest) then [SkipSpaces(rest)] + Values(lines[1..])
        else
          var after := SkipBlankLines(lines[1..]);
          if after == [] then [""] else [SkipSpaces(after[0])] + Values(after[1..])
  }

  /** Blanks, a list mark with more blanks if there is one, the tag in any case, and the rest. */
  ghost predicate IsFooterLine(line: string, a: string, mark: string, b: string, tag: string, rest: string) {
    && line == a + mark + b + tag + rest && Blank(a) && Blank(b) && Spells(tag, "resolves:")
    && ((mark == "" && b == "") || mark == "-" || mark == "*")
  }

  lemma TagIsText(tag: string)
    ensures Lower(tag) == "resolves:" <==> Spells(tag, "resolves:")
    ensures Spells(tag, "resolves:") ==> |tag| == 9 && !IsSpace(tag[0]) && tag[0] != '-' && tag[0] != '*'
  {
    SpellsLower(tag, "resolves:");
  }

  lemma Regroup(a: string, mark: string, b: string, tag: string, rest: string)
    ensures a + mark + b + tag + rest == a + (mark + (b + (tag + rest)))
  {
  }

  /** The mark and the blanks behind it, before the tag. */
  lemma MarkParts(t: string) returns (mark: string, b: string, u: string)
    ensures t == mark + (b + u) && Blank(b) && ((mark == "" && b == "") || mark == "-" || mark == "*")
    ensures u == AfterMark(t)
  {
    mark, b, u := "", "", t;
    if t != "" && (t[0] == '-' || t[0] == '*') {
      mark, u := t[..1], SkipSpaces(t[1..]);
      b := SkipSplits(t[1..]);
    }
  }

  lemma FooterIsMade(line: string)
    requires FooterRest(line).Some?
    ensures exists a, mark, b, tag :: IsFooterLine(line, a, mark, b, tag, FooterRest(line).value)
  {
    var a := SkipSplits(line);
    var mark, b, u := MarkParts(SkipSpaces(line));
    TagIsText(u[..9]);
    JoinParts(line, a, mark, b, u);
  }

  lemma JoinParts(line: string, a: string, mark: string, b: string, u: string)
    requires |u| >= 9 && line == a + (mark + (b + u)) && Blank(a) && Blank(b) && Spells(u[..9], "resolves:")
    requires (mark == "" && b == "") || mark == "-" || mark == "*"
    ensures IsFooterLine(line, a, mark, b, u[..9], u[9..])
  {
    Regroup(a, mark, b, u[..9], u[9..]);
    assert u[..9] + u[9..] == u;
  }

  lemma MarkSkipped(mark: string, b: string, u: string)
    requires Blank(b) && ((mark == "" && b == "") || mark == "-" || mark == "*")
    requires u != "" && !IsSpace(u[0]) && u[0] != '-' && u[0] != '*'
    ensures var t := mark + (b + u);
      t != "" && !IsSpace(t[0]) && AfterMark(t) == u
  {
    SkipBlank(b, u);
    var t := mark + (b + u);
    if mark == "" {
      assert t == u;
    } else {
      assert t[1..] == b + u;
    }
  }

  lemma MadeIsFooter(line: string, a: string, mark: string, b: string, tag: string, rest: string)
    requires IsFooterLine(line, a, mark, b, tag, rest)
    ensures FooterRest(line) == Some(rest)
  {
    TagIsText(tag);
    SliceConcat(tag, rest, 9);
    MarkSkipped(mark, b, tag + rest);
    Regroup(a, mark, b, tag, rest);
    SkipBlank(a, mark + (b + (tag + rest)));
    assert tag[..9] == tag && tag[9..] + rest == rest;
  }

  /** Which lines are footers, and what follows the tag. */
  lemma FooterIs(line: string, rest: string)
    ensures FooterRest(line) == Some(rest) <==> exists a, mark, b, tag :: IsFooterLine(line, a, mark, b, tag, rest)
  {
    if FooterRest(line) == Some(rest) {
      FooterIsMade(line);
    } else if exists a, mark, b, tag :: IsFooterLine(line, a, mark, b, tag, rest) {
      var a, mark, b, tag :| IsFooterLine(line, a, mark, b, tag, rest);
      MadeIsFooter(line, a, mark, b, tag, rest);
    }
  }

  lemma {:induction false} BlanksSkipped(blanks: seq<string>, lines: seq<string>)
    requires (forall line <- blanks :: Blank(line)) && (lines == [] || !Blank(lines[0]))
    ensures SkipBlankLines(blanks + lines) == lines
  {
    if blanks == [] {
      assert blanks + lines == lines;
    } else {
      assert (blanks + lines)[1..] == blanks[1..] + lines && (blanks + lines)[0] == blanks[0];
      BlanksSkipped(blanks[1..], lines);
    }
  }

  /** The value of a footer that is blank on its line is the next line that is not blank, whatever that is; it is
      then not read as a footer itself. Without such a line the value is empty. */
  lemma BlankFooterTakesNext(footer: string, blanks: seq<string>, next: string, more: seq<string>)
    requires FooterRest(footer).Some? && Blank(FooterRest(footer).value) && (forall line <- blanks :: Blank(line)) && !Blank(next)
    ensures Values([footer] + (blanks + ([next] + more))) == [SkipSpaces(next)] + Values(more)
    ensures Values([footer] + blanks) == [""]
  {
    BlanksSkipped(blanks, [next] + more);
    BlanksSkipped(blanks, []);
    assert blanks + [] == blanks && ([next] + more)[1..] == more;
    assert ([footer] + (blanks + ([next] + more)))[1..] == blanks + ([next] + more);
    assert ([footer] + blanks)[1..] == blanks;
  }

  function KeysOfAll(values: seq<string>): set<string> {
    if values == [] then {} else Keys(values[0], true) + KeysOfAll(values[1..])
  }

  /** resolves_keys */
  function ResolvesKeys(message: string): set<string> { KeysOfAll(Values(Split(message))) }

  // ---------------------------------------------------------------- the rewriting

  /** Length of a tag with its colon at the very front of the line. */
  function TagLength(line: string): (n: nat)
    ensures n <= |line|
  {
    if |line| >= 9 && Lower(line[..9]) == "resolves:" then 9
    else if |line| >= 8 && Lower(line[..8]) == "related:" then 8
    else 0
  }

  function NewLine(line: string, z: string, y: string): string
    requires z != ""
  {
    var n := TagLength(line);
    if n == 0 then line else line[..n] + Substitute(line[n..], z, y, true)
  }

  predicate ResolvesY(line: string, y: string) { TagLength(line) == 9 && Upper(y) in Keys(line, true) }

  function NewLines(lines: seq<string>, z: string, y: string): (r: seq<string>)
    requires z != ""
    ensures |r| == |lines| && forall i :: 0 <= i < |r| ==> r[i] == NewLine(lines[i], z, y)
  {
    seq(|lines|, i requires 0 <= i < |lines| => NewLine(lines[i], z, y))
  }

  /** "Resolves: " and the key. */
  function Footer(y: string): string { "Resolves:" + ([' '] + y) }

  ghost predicate Names(lines: seq<string>, y: string) { exists line <- lines :: ResolvesY(line, y) }

  lemma NamesNext(all: seq<string>, i: nat, y: string)
    requires i < |all|
    ensures all[..i+1] == all[..i] + [all[i]]
    ensures Names(all[..i+1], y) <==> Names(all[..i], y) || ResolvesY(all[i], y)
  {
    assert forall l <- all[..i] :: l in all[..i+1];
  }

  /** The lines of the new message: a Resolves footer is added if none names y. */
  ghost function Retargeted(lines: seq<string>, z: string, y: string): seq<string>
    requires z != ""
  {
    var changed := NewLines(lines, z, y);
    if Names(changed, y) then changed else changed + ["", Footer(y)]
  }

  method RewriteLines(lines: seq<string>, z: string, y: string) returns (changed: seq<string>, saw: bool)
    requires z != ""
    ensures changed == NewLines(lines, z, y) && saw == Names(changed, y)
  {
    ghost var all := NewLines(lines, z, y);
    changed, saw := [], false;
    for i := 0 to |lines|
      invariant changed == all[..i]
      invariant saw <==> Names(all[..i], y)
    {
      var line := NewLine(lines[i], z, y);
      assert line == all[i];
      NamesNext(all, i, y);
      if ResolvesY(line, y) {
        saw := true;
      }
      changed := changed + [line];
    }
    assert all[..|lines|] == all;
  }

  method RewriteCommitMessage(message: string, z: string, y: string) returns (r: string)
    requires z != ""
    ensures r == TrimEnd(Unsplit(Retargeted(SplitLines(TrimEnd(message)), z, y)))
  {
    var changed, saw := RewriteLines(SplitLines(TrimEnd(message)), z, y);
    if !saw {
      changed := changed + ["", Footer(y)];
    }
    r := TrimEnd(Unsplit(changed));
  }

  // ---------------------------------------------------------------- which messages it is for

  /** The line's Resolves footer, if it is one, names z on that line, on its own, and no other key. */
  predicate FitLine(line: string, z: string)
    requires z != ""
  {
    FooterRest(line).Some? ==> Clean(FooterRest(line).value, z) && Keys(FooterRest(line).value, true) == {Upper(z)}
  }

  /** Not indented and no list item. */
  predicate Flush(line: string) { TagLength(line) == 9 }

  ghost predicate AllFlush(lines: seq<string>) { forall line <- lines :: FooterRest(line).Some? ==> Flush(line) }

  lemma FlushRest(line: string)
    requires TagLength(line) > 0
    ensures FooterRest(line) == if TagLength(line) == 9 then Some(line[9..]) else None
  {
    assert Lower(line[..TagLength(line)])[0] == LowerChar(line[0]);
    if TagLength(line) == 8 && |line| >= 9 {
      assert Lower(line[..9])[2] == LowerChar(line[2]) == Lower(line[..8])[2] == 'l';
    }
  }

  // ---------------------------------------------------------------- keys of a rewritten line

  lemma {:induction false} BlankNoKeys(s: string, boundary: bool)
    requires Blank(s)
    ensures Keys(s, boundary) == {}
  {
    if s != "" {
      assert s[0] in s;
      BlankNoKeys(s[1..], true);
    }
  }

  lemma {:induction false} SkipKeys(s: string)
    ensures Keys(SkipSpaces(s), true) == Keys(s, true)
  {
    if s != "" && IsSpace(s[0]) {
      SkipKeys(s[1..]);
    }
  }

  lemma TagChars(line: string)
    requires TagLength(line) == 9
    ensures line[8] == ':' && forall i :: 0 <= i < 8 ==> Letter(line[i])
  {
    forall i | 0 <= i < 9 ensures LowerChar(line[i]) == "resolves:"[i] {
      assert Lower(line[..9])[i] == LowerChar(line[i]);
    }
  }

  lemma TagHidesNothing(line: string)
    requires TagLength(line) == 9
    ensures Keys(line, true) == Keys(line[9..], true)
  {
    TagChars(line);
    var (word, rest) := (line[..8], line[9..]);
    var t := [':'] + rest;
    assert line == word + t;
    RunIs(Alnum, word, t);
    assert line[1..] == word[1..] + t;
    NoKeyInWord(word[1..], t);
    assert t[1..] == rest;
  }

  /** The key that a footer names after the rewriting. */
  function NewKey(line: string, z: string, y: string): string { if Flush(line) then Upper(y) else Upper(z) }

  /** A footer stays a footer; it then names y and nothing else if it is flush, and z if not. */
  lemma NewLineKeys(line: string, z: string, y: string)
    requires IsKey(z) && IsKey(y) && FitLine(line, z)
    ensures var l := NewLine(line, z, y);
      && (Flush(l) <==> Flush(line)) && (FooterRest(l).Some? <==> FooterRest(line).Some?)
      && (FooterRest(l).Some? ==> Keys(FooterRest(l).value, true) == {NewKey(line, z, y)})
      && (Flush(l) ==> FooterRest(l).Some? && ResolvesY(l, y))
  {
    var n := TagLength(line);
    if n > 0 {
      var l := NewLine(line, z, y);
      assert l[..n] == line[..n] && l[n..] == Substitute(line[n..], z, y, true);
      SameTag(line, l);
      FlushRest(line);
      FlushRest(l);
      if n == 9 {
        CleanSubstitute(line[9..], z, y, true, true);
        TagHidesNothing(l);
      }
    }
  }

  /** Only text behind a "Resolves:" or "Related:" at the very front, in any case, is rewritten. */
  lemma NewLineIs(line: string, z: string, y: string)
    requires z != ""
    ensures if |line| >= 9 && Spells(line[..9], "resolves:") then NewLine(line, z, y) == line[..9] + Substitute(line[9..], z, y, true)
            else if |line| >= 8 && Spells(line[..8], "related:") then NewLine(line, z, y) == line[..8] + Substitute(line[8..], z, y, true)
            else NewLine(line, z, y) == line
  {
    if |line| >= 9 {
      SpellsLower(line[..9], "resolves:");
    }
    if |line| >= 8 {
      SpellsLower(line[..8], "related:");
    }
  }

  /** A flush "Related:" footer that names z alone names y alone afterwards; it does not count as one that resolves. */
  lemma RelatedIsRetargeted(line: string, z: string, y: string)
    requires IsKey(z) && IsKey(y) && |line| >= 8 && Spells(line[..8], "related:")
    requires Clean(line[8..], z) && Keys(line[8..], true) == {Upper(z)}
    ensures var l := NewLine(line, z, y); l[..8] == line[..8] && Keys(l[8..], true) == {Upper(y)} && !ResolvesY(l, y)
  {
    RelatedTag(line);
    CleanSubstitute(line[8..], z, y, true, true);
    var l := NewLine(line, z, y);
    assert l == line[..8] + Substitute(line[8..], z, y, true) && l[..8] == line[..8];
    SameTag(line, l);
  }

  lemma RelatedTag(line: string)
    requires |line| >= 8 && Spells(line[..8], "related:")
    ensures TagLength(line) == 8
  {
    SpellsLower(line[..8], "related:");
    assert Lower(line[..8])[2] == LowerChar(line[2]) == 'l';
    if |line| >= 9 {
      assert Lower(line[..9])[2] == LowerChar(line[2]);
    }
  }

  lemma SameTag(line: string, l: string)
    requires TagLength(line) > 0 && |l| >= TagLength(line) && l[..TagLength(line)] == line[..TagLength(line)]
    ensures TagLength(l) == TagLength(line)
  {
    if TagLength(line) == 8 && |l| >= 9 {
      assert Lower(l[..9])[2] == LowerChar(l[2]) == Lower(line[..8])[2] == 'l';
    }
  }

  ghost predicate Named(lines: seq<string>, key: string) {
    exists l <- lines :: FooterRest(l).Some? && key in Keys(FooterRest(l).value, true)
  }

  /** With every footer's keys on its own line, a message resolves what the single footers name. */
  lemma {:induction false} ResolvedByLines(lines: seq<string>, key: string)
    requires forall l <- lines :: FooterRest(l).Some? ==> !Blank(FooterRest(l).value)
    ensures key in KeysOfAll(Values(lines)) <==> Named(lines, key)
  {
    if lines != [] {
      ResolvedByLines(lines[1..], key);
      assert lines == [lines[0]] + lines[1..];
      var rest := FooterRest(lines[0]);
      if rest.Some? {
        SkipKeys(rest.value);
        assert Values(lines) == [SkipSpaces(rest.value)] + Values(lines[1..]);
      }
    }
  }

  // ---------------------------------------------------------------- the text of the new message

  predicate Tight(s: string) { s != "" && !IsSpace(s[|s|-1]) }

  lemma {:induction false} TrimTight(s: string)
    ensures TrimEnd(s) == "" || Tight(TrimEnd(s))
  {
    if s != "" && IsSpace(s[|s|-1]) {
      TrimTight(s[..|s|-1]);
    }
  }

  lemma BreakNotLast(s: string, n: nat)
    requires n < |s| && IsBreak(s[n]) && Tight(s)
    ensures n + BreakSize(s, n) < |s| && Tight(s[n + BreakSize(s, n)..])
  {
    assert IsBreak('\n') && forall c :: IsBreak(c) ==> IsSpace(c);
    var rest := s[n + BreakSize(s, n)..];
    assert rest != "" ==> rest[|rest|-1] == s[|s|-1];
  }

  /** The last line of a trimmed text ends in no blank. */
  lemma {:induction false} LastLineTight(s: string)
    requires Tight(s)
    ensures SplitLines(s) != [] && Tight(SplitLines(s)[|SplitLines(s)|-1])
    decreases |s|
  {
    var n := |FirstLine(s)|;
    if n < |s| {
      BreakNotLast(s, n);
      var rest := s[n + BreakSize(s, n)..];
      LastLineTight(rest);
      LastOfMore(s[..n], SplitLines(rest));
    }
    SplitNext(s);
  }

  lemma LastOfMore(x: string, xs: seq<string>)
    requires xs != []
    ensures ([x] + xs)[|[x] + xs| - 1] == xs[|xs|-1]
  {
  }

  lemma {:induction false} SubstituteTight(v: string, z: string, y: string, free: bool)
    requires z != "" && Tight(y) && Tight(v)
    ensures Tight(Substitute(v, z, y, free))
    decreases |v|
  {
    var (n, head, after) := if free && MatchesAt(v, z) then (|z|, y, !KeyChar(z[|z|-1])) else (1, [v[0]], !KeyChar(v[0]));
    var rest := v[n..];
    if rest == "" {
      assert Substitute(v, z, y, free) == head + Substitute("", z, y, after);
      assert n == 1 ==> v == [v[0]];
    } else {
      assert rest[|rest|-1] == v[|v|-1];
      SubstituteTight(rest, z, y, after);
      var tail := Substitute(rest, z, y, after);
      assert Substitute(v, z, y, free) == head + tail;
    }
  }

  lemma {:induction false} SubstituteOneLine(v: string, z: string, y: string, free: bool)
    requires z != "" && OneLine(y) && OneLine(v)
    ensures OneLine(Substitute(v, z, y, free))
    decreases |v|
  {
    if v != "" {
      if free && MatchesAt(v, z) {
        SubstituteOneLine(v[|z|..], z, y, !KeyChar(z[|z|-1]));
      } else {
        SubstituteOneLine(v[1..], z, y, !KeyChar(v[0]));
      }
    }
  }

  lemma NewLineShape(line: string, z: string, y: string)
    requires z != "" && IsKey(y) && OneLine(line)
    ensures OneLine(NewLine(line, z, y)) && (Tight(line) ==> Tight(NewLine(line, z, y)))
  {
    var n := TagLength(line);
    if n > 0 {
      assert line == line[..n] + line[n..];
      SubstituteOneLine(line[n..], z, y, true);
      if Tight(line) && line[n..] != "" {
        SubstituteTight(line[n..], z, y, true);
      }
    }
  }

  lemma SpacedKey(y: string)
    requires IsKey(y)
    ensures Keys([' '] + y, true) == {Upper(y)} && !Blank([' '] + y)
  {
    KeyFound(y, "");
    assert y + "" == y;
    if Blank([' '] + y) {
      BlankNoKeys([' '] + y, true);
    }
  }

  /** What a line of the new message is like. */
  predicate Fits(l: string, z: string, y: string) {
    OneLine(l) && (FooterRest(l).Some? ==> Keys(FooterRest(l).value, true) == {NewKey(l, z, y)}) && (Flush(l) ==> FooterRest(l).Some?)
  }

  lemma FitsByTag(l: string, z: string, y: string)
    requires Flush(l) && OneLine(l) && Keys(l[9..], true) == {Upper(y)}
    ensures Fits(l, z, y)
  {
    FlushRest(l);
  }

  lemma FooterShape(y: string)
    requires IsKey(y)
    ensures Tight(Footer(y)) && OneLine(Footer(y)) && TagLength(Footer(y)) == 9 && Footer(y)[9..] == [' '] + y
  {
    assert OneLine("Resolves:") && Footer(y)[|Footer(y)|-1] == y[|y|-1];
  }

  lemma AddedLine(z: string, y: string)
    requires IsKey(y)
    ensures Tight(Footer(y)) && Fits(Footer(y), z, y) && Flush(Footer(y))
  {
    FooterShape(y);
    SpacedKey(y);
    FitsByTag(Footer(y), z, y);
  }

  lemma ChangedLine(line: string, z: string, y: string)
    requires IsKey(z) && IsKey(y) && FitLine(line, z) && OneLine(line)
    ensures var l := NewLine(line, z, y); Fits(l, z, y) && (Tight(line) ==> Tight(l))
    ensures FooterRest(NewLine(line, z, y)).Some? <==> FooterRest(line).Some?
    ensures Flush(NewLine(line, z, y)) <==> Flush(line)
  {
    NewLineShape(line, z, y);
    NewLineKeys(line, z, y);
  }

  ghost predicate AllFit(lines: seq<string>, z: string, y: string) { forall l <- lines :: Fits(l, z, y) }

  lemma ChangedLines(lines: seq<string>, z: string, y: string)
    requires IsKey(z) && IsKey(y) && (forall l <- lines :: FitLine(l, z) && OneLine(l)) && (lines == [] || Tight(lines[|lines|-1]))
    ensures var changed := NewLines(lines, z, y);
      && AllFit(changed, z, y) && (changed == [] || Tight(changed[|changed|-1]))
      && (AllFlush(changed) <==> AllFlush(lines))
  {
    var changed := NewLines(lines, z, y);
    forall i | 0 <= i < |lines|
      ensures Fits(changed[i], z, y) && (Tight(lines[i]) ==> Tight(changed[i]))
      ensures (FooterRest(changed[i]).Some? <==> FooterRest(lines[i]).Some?) && (Flush(changed[i]) <==> Flush(lines[i]))
    {
      assert lines[i] in lines;
      ChangedLine(lines[i], z, y);
    }
  }

  /** Lines of a message that resolves y, and z too unless all footers are flush. */
  ghost predicate Resolved(lines: seq<string>, z: string, y: string, flush: bool) {
    && lines != [] && Tight(lines[|lines|-1]) && AllFit(lines, z, y)
    && (exists l <- lines :: Flush(l)) && (AllFlush(lines) <==> flush)
  }

  lemma WithoutFooter(changed: seq<string>, line: string, z: string, y: string)
    requires AllFit(changed, z, y) && line in changed && Flush(line) && Tight(changed[|changed|-1])
    ensures Resolved(changed, z, y, AllFlush(changed))
  {
  }

  lemma FooterAdded(changed: seq<string>, added: string, z: string, y: string)
    requires AllFit(changed, z, y) && (changed == [] || Tight(changed[|changed|-1]))
    requires Tight(added) && Fits(added, z, y) && Flush(added)
    ensures Resolved(if Names(changed, y) then changed else changed + ["", added], z, y, AllFlush(changed))
  {
    if Names(changed, y) {
      var line :| line in changed && ResolvesY(line, y);
      WithoutFooter(changed, line, z, y);
    }
  }

  /** What the lines of the new message are like. */
  lemma RetargetedLines(lines: seq<string>, z: string, y: string)
    requires IsKey(z) && IsKey(y) && (forall l <- lines :: FitLine(l, z) && OneLine(l)) && (lines == [] || Tight(lines[|lines|-1]))
    ensures Resolved(Retargeted(lines, z, y), z, y, AllFlush(lines))
  {
    ChangedLines(lines, z, y);
    AddedLine(z, y);
    FooterAdded(NewLines(lines, z, y), Footer(y), z, y);
  }

  lemma TightIsTidy(lines: seq<string>)
    requires lines != [] && Tight(lines[|lines|-1])
    ensures Tidy(lines) == lines
  {
    var (front, last) := (lines[..|lines|-1], lines[|lines|-1]);
    assert TrimEnd(last) == last;
    assert lines == front + [last];
  }

  lemma FitsAll(lines: seq<string>, z: string, y: string)
    requires AllFit(lines, z, y)
    ensures forall l <- lines :: OneLine(l) && '\n' !in l && (FooterRest(l).Some? ==> !Blank(FooterRest(l).value))
  {
    forall l <- lines ensures OneLine(l) && '\n' !in l && (FooterRest(l).Some? ==> !Blank(FooterRest(l).value)) {
      assert IsBreak('\n') && Fits(l, z, y);
      if FooterRest(l).Some? && Blank(FooterRest(l).value) {
        BlankNoKeys(FooterRest(l).value, true);
      }
    }
  }

  lemma KeyOfResolved(lines: seq<string>, z: string, y: string, flush: bool, key: string)
    requires Resolved(lines, z, y, flush)
    ensures key in KeysOfAll(Values(lines)) <==> key == Upper(y) || (!flush && key == Upper(z))
  {
    FitsAll(lines, z, y);
    ResolvedByLines(lines, key);
  }

  lemma KeysOfResolved(lines: seq<string>, z: string, y: string, flush: bool)
    requires Resolved(lines, z, y, flush)
    ensures KeysOfAll(Values(lines)) == if flush then {Upper(y)} else {Upper(y), Upper(z)}
  {
    forall key ensures key in KeysOfAll(Values(lines)) <==> key == Upper(y) || (!flush && key == Upper(z)) {
      KeyOfResolved(lines, z, y, flush, key);
    }
  }

  lemma TextOfLines(lines: seq<string>)
    requires lines != [] && Tight(lines[|lines|-1]) && forall l <- lines :: OneLine(l) && '\n' !in l
    ensures var r := TrimEnd(Unsplit(lines)); SplitLines(r) == lines && Split(r) == lines
  {
    TightIsTidy(lines);
    TrimUnsplit(lines);
    UnsplitRoundTrip(lines);
    SplitUnsplit(lines);
  }

  lemma LinesOfText(message: string)
    ensures var lines := SplitLines(TrimEnd(message)); (forall l <- lines :: OneLine(l)) && (lines == [] || Tight(lines[|lines|-1]))
  {
    SplitsAreLines(TrimEnd(message));
    TrimTight(message);
    if TrimEnd(message) != "" {
      LastLineTight(TrimEnd(message));
    }
  }

  /** Lines that are no footers stay as they are, in place; at most a blank line and a footer are added. */
  ghost predicate OthersKept(before: seq<string>, after: seq<string>, y: string) {
    && |before| <= |after| && (after[|before|..] == [] || after[|before|..] == ["", Footer(y)])
    && forall i :: 0 <= i < |before| && TagLength(before[i]) == 0 ==> after[i] == before[i]
  }

  lemma OthersInPlace(lines: seq<string>, z: string, y: string)
    requires z != ""
    ensures OthersKept(lines, Retargeted(lines, z, y), y)
  {
    var (changed, added) := (NewLines(lines, z, y), ["", Footer(y)]);
    assert changed[|lines|..] == [] && (changed + added)[|lines|..] == added;
  }

  /** Of a message whose footers name the Z-stream key alone, each on one line, the new message resolves the
      Y-stream key, and still the other one too exactly when some footer is indented or a list item. */
  lemma RetargetResolves(message: string, z: string, y: string)
    requires IsKey(z) && IsKey(y) && forall l <- SplitLines(TrimEnd(message)) :: FitLine(l, z)
    ensures var lines := SplitLines(TrimEnd(message));
      var r := TrimEnd(Unsplit(Retargeted(lines, z, y)));
      && ResolvesKeys(r) == (if AllFlush(lines) then {Upper(y)} else {Upper(y), Upper(z)})
      && SplitLines(r) == Retargeted(lines, z, y) && OthersKept(lines, SplitLines(r), y)
  {
    var lines := SplitLines(TrimEnd(message));
    var out := Retargeted(lines, z, y);
    LinesOfText(message);
    RetargetedLines(lines, z, y);
    OthersInPlace(lines, z, y);
    FitsAll(out, z, y);
    TextOfLines(out);
    KeysOfResolved(out, z, y, AllFlush(lines));
  }

  lemma SpacedClean(z: string)
    requires IsKey(z)
    ensures Clean([' '] + z, z)
  {
    assert z[|z|..] == "" && z[..|z|] == z && MatchesAt(z, z) && Clean(z, z);
    assert ([' '] + z)[1..] == z && Separator(' ');
  }

  lemma FooterKeys(z: string)
    requires IsKey(z)
    ensures FooterRest(Footer(z)).Some? && FitLine(Footer(z), z)
  {
    FooterShape(z);
    FlushRest(Footer(z));
    SpacedKey(z);
    SpacedClean(z);
  }

  lemma IndentedLine(z: string)
    requires IsKey(z)
    ensures var l := [' '] + Footer(z); FitLine(l, z) && FooterRest(l).Some? && !Flush(l) && Tight(l) && OneLine(l)
  {
    FooterShape(z);
    TagChars(Footer(z));
    FooterKeys(z);
  }

  /** Whatever the two keys, an indented footer keeps the old one. */
  lemma IndentedFooterStays(z: string, y: string)
    requires IsKey(z) && IsKey(y)
    ensures var message := [' '] + Footer(z);
      ResolvesKeys(TrimEnd(Unsplit(Retargeted(SplitLines(TrimEnd(message)), z, y)))) == {Upper(y), Upper(z)}
  {
    var message := [' '] + Footer(z);
    IndentedLine(z);
    assert TrimEnd(message) == message;
    FirstLineAll(message, "");
    assert message + "" == message;
    assert SplitLines(message) == [message];
    RetargetResolves(message, z, y);
  }
}

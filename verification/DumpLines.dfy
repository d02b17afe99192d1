/** Splitting a dump into lines and lines into elements. */
module DumpLines {
  import opened Common
  import opened Text
  import opened Utf8
  import opened DumpParser

  // ---------------------------------------------------------------- one framed line

  function SkipDigits(s: string): (r: string)
    ensures |r| <= |s|
  {
    if s != "" && IsDigit(s[0]) then SkipDigits(s[1..]) else s
  }

  /** The quoted part of a line that reads: blanks, digits, ")", blanks, quote, anything, quote, blanks. */
  function Quoted(line: string): Option<string> {
    var number := SkipSpaces(line);
    var afterNumber := SkipDigits(number);
    if |afterNumber| == |number| || afterNumber == "" || afterNumber[0] != ')' then None
    else
      var afterGap := SkipSpaces(afterNumber[1..]);
      if |afterGap| == |afterNumber| - 1 || afterGap == "" || afterGap[0] != '"' then None
      else
        var body := TrimEnd(afterGap[1..]);
        if body == "" || body[|body|-1] != '"' then None else Some(body[..|body|-1])
  }

  /** The same line pattern as a regular expression reads it. */
  ghost predicate Matches(line: string, group: string) {
    exists a, digits, b, c ::
      Blank(a) && digits != "" && OnlyDigits(digits) && b != "" && Blank(b) && Blank(c)
      && line == a + digits + ")" + b + "\"" + group + "\"" + c
  }

  lemma {:induction false} SkipNumber(a: string, rest: string)
    requires OnlyDigits(a) && (rest == "" || !IsDigit(rest[0]))
    ensures SkipDigits(a + rest) == rest
  {
    if a == "" {
      assert a + rest == rest;
    } else {
      assert (a + rest)[1..] == a[1..] + rest;
      SkipNumber(a[1..], rest);
    }
  }

  lemma {:induction false} NumberSplits(s: string) returns (a: string)
    ensures OnlyDigits(a) && s == a + SkipDigits(s)
  {
    if s != "" && IsDigit(s[0]) {
      var b := NumberSplits(s[1..]);
      a := [s[0]] + b;
    } else {
      a := "";
    }
  }

  lemma QuotedWhenMatched(a: string, digits: string, b: string, group: string, c: string)
    requires Blank(a) && digits != "" && OnlyDigits(digits) && b != "" && Blank(b) && Blank(c)
    ensures Quoted(a + digits + ")" + b + "\"" + group + "\"" + c) == Some(group)
  {
    var body := group + "\"";
    var s3 := "\"" + (body + c);
    var s2 := ")" + (b + s3);
    var s1 := digits + s2;
    var line := a + digits + ")" + b + "\"" + group + "\"" + c;
    assert line == a + s1;
    assert s1[0] == digits[0] && IsDigit(digits[0]);
    SkipBlank(a, s1);
    SkipNumber(digits, s2);
    assert s2[1..] == b + s3;
    SkipBlank(b, s3);
    assert s3[1..] == body + c;
    TrimBlank(body, c);
    assert body[..|body|-1] == group;
  }

  /** The parts a quoted line consists of. */
  lemma MatchedWhenQuoted(line: string) returns (a: string, digits: string, b: string, c: string)
    requires Quoted(line).Some?
    ensures Blank(a) && digits != "" && OnlyDigits(digits) && b != "" && Blank(b) && Blank(c)
    ensures line == a + digits + ")" + b + "\"" + Quoted(line).value + "\"" + c
  {
    a := SkipSplits(line);
    var number := SkipSpaces(line);
    digits := NumberSplits(number);
    var after := SkipDigits(number);
    b := SkipSplits(after[1..]);
    var gap := SkipSpaces(after[1..]);
    c := TrimSplits(gap[1..]);
    var body := TrimEnd(gap[1..]);
    assert after == ")" + after[1..] && gap == "\"" + gap[1..] && body == Quoted(line).value + "\"";
    Assemble(line, a, number, digits, after, b, gap, body, c, Quoted(line).value);
  }

  lemma Assemble(line: string, a: string, number: string, digits: string, after: string, b: string, gap: string,
                 body: string, c: string, group: string)
    requires line == a + number && number == digits + after && after == ")" + (b + gap)
    requires gap == "\"" + (body + c) && body == group + "\""
    ensures line == a + digits + ")" + b + "\"" + group + "\"" + c
  {
  }

  /** The scan finds exactly what the pattern matches, and the match is unique. */
  lemma QuotedIsMatch(line: string, group: string)
    ensures Quoted(line) == Some(group) <==> Matches(line, group)
  {
    if Matches(line, group) {
      var a, digits, b, c :| Blank(a) && digits != "" && OnlyDigits(digits) && b != "" && Blank(b) && Blank(c)
        && line == a + digits + ")" + b + "\"" + group + "\"" + c;
      QuotedWhenMatched(a, digits, b, group, c);
    }
    if Quoted(line) == Some(group) {
      var a, digits, b, c := MatchedWhenQuoted(line);
    }
  }

  // ---------------------------------------------------------------- the elements of a dump

  function FirstNonBlank(lines: seq<string>): Option<string> {
    if lines == [] then None else if !Blank(lines[0]) then Some(lines[0]) else FirstNonBlank(lines[1..])
  }

  /** Decided by the first line that is not blank. */
  predicate Framed(lines: seq<string>) {
    FirstNonBlank(lines).Some? && Quoted(FirstNonBlank(lines).value).Some?
  }

  function Element(line: string): seq<string> {
    if Quoted(line).Some? then [Decode(Unescaped(Quoted(line).value))] else []
  }

  function FramedElements(lines: seq<string>): seq<string> { FlatMap(Element, lines) }

  /** The line that decides whether the dump is framed. */
  method FirstText(lines: seq<string>) returns (first: Option<string>)
    ensures first == FirstNonBlank(lines)
  {
    var i := 0;
    while i < |lines| && Blank(lines[i])
      invariant 0 <= i <= |lines|
      invariant FirstNonBlank(lines) == FirstNonBlank(lines[i..])
    {
      i := i + 1;
    }
    first := if i < |lines| then Some(lines[i]) else None;
  }

  method CollectElements(lines: seq<string>) returns (found: seq<string>)
    ensures found == FramedElements(lines)
  {
    found := [];
    for i := 0 to |lines|
      invariant found == FramedElements(lines[..i])
    {
      FlatMapConcat(Element, lines[..i], [lines[i]]);
      assert lines[..i+1] == lines[..i] + [lines[i]];
      var group := Quoted(lines[i]);
      if group.Some? {
        var element := UnescapeRediscli(group.value);
        found := found + [element];
      }
    }
    assert lines[..|lines|] == lines;
  }

  /** The elements of a framed dump; any other text is left to the raw reading. */
  method ToElements(blob: string, raw: string -> seq<string>) returns (elements: seq<string>)
    ensures elements == if Framed(SplitLines(blob)) then FramedElements(SplitLines(blob)) else raw(blob)
  {
    var lines := SplitLines(blob);
    var first := FirstText(lines);
    if first.None? || Quoted(first.value).None? {
      return raw(blob);
    }
    elements := CollectElements(lines);
  }

  // ---------------------------------------------------------------- printing and reading back

  predicate Plain(s: string) { forall c <- s :: ' ' <= c <= '~' }

  lemma {:induction false} EscapedIsPlain(e: Bytes)
    ensures Plain(Escape(e))
  {
    if e != [] {
      EscapedIsPlain(e[1..]);
    }
  }

  lemma LineReadsBack(n: nat, width: nat, e: Bytes)
    ensures Plain(PrintLine(n, width, e)) && !Blank(PrintLine(n, width, e))
    ensures Quoted(PrintLine(n, width, e)) == Some(Escape(e))
  {
    LineIsPlain(n, width, e);
    LineIsQuoted(n, width, e);
    NotBlank(PrintLine(n, width, e), |PrintLine(n, width, e)| - 1);
  }

  lemma LineIsQuoted(n: nat, width: nat, e: Bytes)
    ensures var line := PrintLine(n, width, e);
      Quoted(line) == Some(Escape(e)) && line != "" && !IsSpace(line[|line|-1])
  {
    var line := PrintLine(n, width, e);
    QuotedWhenMatched(Spaces(width - |Decimal(n)|), Decimal(n), " ", Escape(e), "");
    assert line + "" == line && line[|line|-1] == '"';
  }

  lemma PlainConcat(a: string, b: string)
    requires Plain(a) && Plain(b)
    ensures Plain(a + b)
  {
  }

  lemma LineIsPlain(n: nat, width: nat, e: Bytes)
    ensures Plain(PrintLine(n, width, e))
  {
    var number := Spaces(width - |Decimal(n)|) + Decimal(n);
    EscapedIsPlain(e);
    PlainConcat(Spaces(width - |Decimal(n)|), Decimal(n));
    PlainConcat(number, ")");
    PlainConcat(number + ")", " ");
    PlainConcat(number + ")" + " ", "\"");
    PlainConcat(number + ")" + " " + "\"", Escape(e));
    PlainConcat(number + ")" + " " + "\"" + Escape(e), "\"");
  }

  lemma NotBlank(line: string, i: nat)
    requires i < |line| && !IsSpace(line[i])
    ensures !Blank(line)
  {
  }

  lemma PlainIsOneLine(s: string)
    requires Plain(s)
    ensures OneLine(s)
  {
  }

  function Decoded(es: seq<Bytes>): seq<string> {
    if es == [] then [] else [Decode(es[0])] + Decoded(es[1..])
  }

  lemma {:induction false} LinesReadBack(es: seq<Bytes>, n: nat, width: nat)
    ensures FramedElements(PrintLines(es, n, width)) == Decoded(es)
    ensures forall line <- PrintLines(es, n, width) :: Plain(line)
  {
    if es != [] {
      LineReadsBack(n, width, es[0]);
      UnescapeEscape(es[0]);
      LinesReadBack(es[1..], n + 1, width);
      assert PrintLines(es, n, width)[1..] == PrintLines(es[1..], n + 1, width);
    }
  }

  lemma NoNumberNotFramed(line: string)
    requires line != "" && OneLine(line) && !IsSpace(line[0]) && !IsDigit(line[0])
    ensures !Framed(SplitLines(Unlines([line])))
  {
    LinesRoundTrip([line]);
    NotBlank(line, 0);
    assert SkipSpaces(line) == line && SkipDigits(line) == line;
    assert Quoted(line).None?;
  }

  /** Reading back what valkey-cli printed gives every element, decoded, in order; only the empty list is
      not read this way. */
  lemma DumpRoundTrip(es: seq<Bytes>)
    ensures Framed(SplitLines(PrintList(es))) <==> es != []
    ensures es != [] ==> FramedElements(SplitLines(PrintList(es))) == Decoded(es)
  {
    if es == [] {
      var line := "(empty array)";
      PlainIsOneLine(line);
      assert PrintList(es) == line + "\n" == Unlines([line]);
      NoNumberNotFramed(line);
    } else {
      var width := |Decimal(|es|)|;
      var lines := PrintLines(es, 1, width);
      LinesReadBack(es, 1, width);
      forall line <- lines ensures OneLine(line) {
        PlainIsOneLine(line);
      }
      LinesRoundTrip(lines);
      LineReadsBack(1, width, es[0]);
    }
  }
}

/** The Ymir trailer of an inherited commit: present exactly once, whatever the message was. */
module Attribution {
  import opened Common
  import opened Text

  function LowerChar(c: char): char { if 'A' <= c <= 'Z' then c - 'A' + 'a' else c }

  function Lower(s: string): (r: string)
    ensures |r| == |s| && forall i :: 0 <= i < |s| ==> r[i] == LowerChar(s[i])
  {
    seq(|s|, i requires 0 <= i < |s| => LowerChar(s[i]))
  }

  const TRAILER := "Assisted-by: Ymir"

  /** "Assisted-by:", blanks, "Ymir", with blanks around and in any case. */
  predicate IsAttribution(line: string) {
    var t := Strip(line);
    |t| >= 12 && Lower(t[..12]) == "assisted-by:" && Lower(SkipSpaces(t[12..])) == "ymir"
  }

  /** The word in any case. */
  predicate Spells(s: string, word: string) {
    |s| == |word| && forall i :: 0 <= i < |s| ==> s[i] == word[i] || ('a' <= word[i] <= 'z' && s[i] == word[i] - 'a' + 'A')
  }

  lemma SpellsLower(s: string, word: string)
    requires forall c <- word :: !('A' <= c <= 'Z')
    ensures Lower(s) == word <==> Spells(s, word)
  {
    forall i | 0 <= i < |s| && i < |word|
      ensures LowerChar(s[i]) == word[i] <==> s[i] == word[i] || ('a' <= word[i] <= 'z' && s[i] == word[i] - 'a' + 'A')
    {
      assert word[i] in word;
    }
  }

  ghost predicate IsMade(line: string, a: string, tag: string, b: string, name: string, c: string) {
    && line == a + tag + b + name + c && Blank(a) && Blank(b) && Blank(c)
    && Spells(tag, "assisted-by:") && Spells(name, "ymir")
  }

  lemma TagSpells(s: string)
    ensures Lower(s) == "assisted-by:" <==> Spells(s, "assisted-by:")
    ensures Lower(s) == "ymir" <==> Spells(s, "ymir")
    ensures Spells(s, "assisted-by:") || Spells(s, "ymir") ==> !IsSpace(s[0]) && !IsSpace(s[|s|-1])
  {
    SpellsLower(s, "assisted-by:");
    SpellsLower(s, "ymir");
  }

  lemma AttributionIsMade(line: string)
    requires IsAttribution(line)
    ensures exists a, tag, b, name, c :: IsMade(line, a, tag, b, name, c)
  {
    var t := Strip(line);
    var a := SkipSplits(line);
    var c := TrimSplits(SkipSpaces(line));
    var (tag, name) := (t[..12], SkipSpaces(t[12..]));
    var b := SkipSplits(t[12..]);
    TagSpells(tag);
    TagSpells(name);
    assert t == tag + b + name by {
      assert t == tag + t[12..];
    }
    assert line == a + (t + c) == a + tag + b + name + c;
    assert IsMade(line, a, tag, b, name, c);
  }

  lemma MadeIsAttribution(line: string, a: string, tag: string, b: string, name: string, c: string)
    requires IsMade(line, a, tag, b, name, c)
    ensures IsAttribution(line)
  {
    TagSpells(tag);
    TagSpells(name);
    var t := tag + b + name;
    assert line == a + (t + c) && (t + c)[0] == tag[0] && t[|t|-1] == name[|name|-1];
    SkipBlank(a, t + c);
    TrimBlank(t, c);
    assert t[..12] == tag && t[12..] == b + name;
    SkipBlank(b, name);
  }

  /** An attribution is the tag and the name, each in any case, with nothing but blanks around them. */
  lemma AttributionIs(line: string)
    ensures IsAttribution(line) <==> exists a, tag, b, name, c :: IsMade(line, a, tag, b, name, c)
  {
    if IsAttribution(line) {
      AttributionIsMade(line);
    } else if exists a, tag, b, name, c :: IsMade(line, a, tag, b, name, c) {
      var a, tag, b, name, c :| IsMade(line, a, tag, b, name, c);
      MadeIsAttribution(line, a, tag, b, name, c);
    }
  }

  // ---------------------------------------------------------------- what is kept

  /** All lines but the marked ones after the first. */
  function KeepFirst(marked: string -> bool, lines: seq<string>, saw: bool): seq<string> {
    if lines == [] then []
    else (if saw && marked(lines[0]) then [] else [lines[0]]) + KeepFirst(marked, lines[1..], saw || marked(lines[0]))
  }

  function Count(marked: string -> bool, lines: seq<string>): nat {
    if lines == [] then 0 else (if marked(lines[0]) then 1 else 0) + Count(marked, lines[1..])
  }

  function Others(marked: string -> bool, lines: seq<string>): seq<string> {
    if lines == [] then [] else (if marked(lines[0]) then [] else [lines[0]]) + Others(marked, lines[1..])
  }

  lemma {:induction false} KeepFirstKeeps(marked: string -> bool, lines: seq<string>, saw: bool)
    ensures Others(marked, KeepFirst(marked, lines, saw)) == Others(marked, lines)
    ensures Count(marked, KeepFirst(marked, lines, saw)) == if !saw && Count(marked, lines) > 0 then 1 else 0
  {
    if lines != [] {
      var rest := KeepFirst(marked, lines[1..], saw || marked(lines[0]));
      KeepFirstKeeps(marked, lines[1..], saw || marked(lines[0]));
      assert ([lines[0]] + rest)[1..] == rest;
      assert KeepFirst(marked, lines, saw) == if saw && marked(lines[0]) then rest else [lines[0]] + rest;
    }
  }

  /** Blank lines at the end dropped, blanks at the end of the last other line too. */
  function Tidy(lines: seq<string>): (r: seq<string>)
    ensures |r| <= |lines|
  {
    if lines == [] then []
    else if Blank(lines[|lines|-1]) then Tidy(lines[..|lines|-1])
    else lines[..|lines|-1] + [TrimEnd(lines[|lines|-1])]
  }

  /** The lines of the new message. */
  function Normal(lines: seq<string>): seq<string> {
    var kept := Tidy(KeepFirst(IsAttribution, lines, false));
    if Count(IsAttribution, lines) > 0 then kept else if kept == [] then [TRAILER] else kept + ["", TRAILER]
  }

  // ---------------------------------------------------------------- joining and trimming

  lemma {:induction false} TrimBlankTail(x: string, y: string)
    requires Blank(y)
    ensures TrimEnd(x + y) == TrimEnd(x)
    decreases |y|
  {
    if y == "" {
      assert x + y == x;
    } else {
      assert (x + y)[..|x + y| - 1] == x + y[..|y|-1];
      TrimBlankTail(x, y[..|y|-1]);
    }
  }

  lemma {:induction false} TrimTextTail(x: string, y: string)
    requires !Blank(y)
    ensures TrimEnd(x + y) == x + TrimEnd(y)
    decreases |y|
  {
    if IsSpace(y[|y|-1]) {
      var (front, last) := (y[..|y|-1], y[|y|-1]);
      assert (x + y)[..|x + y| - 1] == x + front;
      TrimTextTail(x, front);
    }
  }

  lemma {:induction false} UnsplitSnoc(lines: seq<string>, last: string)
    ensures Unsplit(lines + [last]) == if lines == [] then last else Unsplit(lines) + "\n" + last
  {
    if |lines| > 1 {
      assert (lines + [last])[1..] == lines[1..] + [last];
      UnsplitSnoc(lines[1..], last);
    }
  }

  lemma {:induction false} TrimUnsplit(lines: seq<string>)
    ensures TrimEnd(Unsplit(lines)) == Unsplit(Tidy(lines))
  {
    if lines != [] {
      var (front, last) := (lines[..|lines|-1], lines[|lines|-1]);
      assert lines == front + [last];
      UnsplitSnoc(front, last);
      UnsplitSnoc(front, TrimEnd(last));
      var before := if front == [] then "" else Unsplit(front) + "\n";
      assert Unsplit(lines) == before + last;
      if Blank(last) {
        TrimBlankTail(before, last);
        TrimUnsplit(front);
        if front != [] {
          TrimBlankTail(Unsplit(front), "\n");
        }
      } else {
        TrimTextTail(before, last);
      }
    }
  }

  lemma {:induction false} UnlinesIsUnsplit(lines: seq<string>)
    requires lines != []
    ensures Unlines(lines) == Unsplit(lines) + "\n"
  {
    if |lines| > 1 {
      UnlinesIsUnsplit(lines[1..]);
    }
  }

  // ---------------------------------------------------------------- the method

  function Ensured(message: string): string { Unlines(Normal(SplitLines(TrimEnd(message)))) }

  lemma KeepNext(marked: string -> bool, lines: seq<string>, i: nat, saw: bool, kept: seq<string>)
    requires i < |lines|
    ensures var (x, rest) := (lines[i], KeepFirst(marked, lines[i+1..], saw || marked(lines[i])));
      kept + KeepFirst(marked, lines[i..], saw) == if saw && marked(x) then kept + rest else (kept + [x]) + rest
    ensures Count(marked, lines[i..]) == (if marked(lines[i]) then 1 else 0) + Count(marked, lines[i+1..])
  {
    assert lines[i..][1..] == lines[i+1..];
    ConcatAssoc(kept, [lines[i]], KeepFirst(marked, lines[i+1..], saw || marked(lines[i])));
  }

  /** The loop over the lines. */
  method DropRepeats(marked: string -> bool, lines: seq<string>) returns (kept: seq<string>, saw: bool)
    ensures kept == KeepFirst(marked, lines, false) && saw == (Count(marked, lines) > 0)
  {
    kept, saw := [], false;
    for i := 0 to |lines|
      invariant kept + KeepFirst(marked, lines[i..], saw) == KeepFirst(marked, lines, false)
      invariant (saw || Count(marked, lines[i..]) > 0) == (Count(marked, lines) > 0)
    {
      KeepNext(marked, lines, i, saw, kept);
      if marked(lines[i]) {
        if saw {
          continue;
        }
        saw := true;
      }
      kept := kept + [lines[i]];
    }
  }

  /** Drop repeated attributions, trim, add one if there was none. */
  method EnsureSingleAttribution(message: string) returns (r: string)
    ensures r == Ensured(message)
  {
    var lines := SplitLines(TrimEnd(message));
    var kept, saw := DropRepeats(IsAttribution, lines);
    var text := TrimEnd(Unsplit(kept));
    TrimUnsplit(kept);
    if !saw {
      TidyEmpty(kept);
      AppendTrailer(Tidy(kept));
      text := if text != "" then text + "\n\n" + TRAILER else TRAILER;
    } else {
      KeepFirstKeeps(IsAttribution, lines, false);
      MarkedStays(kept);
    }
    UnlinesIsUnsplit(Normal(lines));
    r := text + "\n";
  }

  lemma AppendTrailer(lines: seq<string>)
    ensures Unsplit(lines + ["", TRAILER]) == if lines == [] then "" + "\n" + TRAILER else Unsplit(lines) + "\n\n" + TRAILER
  {
    UnsplitSnoc(lines, "");
    UnsplitSnoc(lines + [""], TRAILER);
    assert lines + ["", TRAILER] == (lines + [""]) + [TRAILER];
  }

  lemma {:induction false} TidyEmpty(lines: seq<string>)
    ensures Tidy(lines) == [] <==> Unsplit(Tidy(lines)) == ""
  {
    if lines != [] {
      if Blank(lines[|lines|-1]) {
        TidyEmpty(lines[..|lines|-1]);
      } else {
        UnsplitSnoc(lines[..|lines|-1], TrimEnd(lines[|lines|-1]));
        TrimNotBlank(lines[|lines|-1]);
      }
    }
  }

  lemma {:induction false} TrimNotBlank(s: string)
    requires !Blank(s)
    ensures TrimEnd(s) != "" && !IsSpace(TrimEnd(s)[|TrimEnd(s)|-1])
  {
    TrimTextTail("", s);
    if IsSpace(s[|s|-1]) {
      TrimNotBlank(s[..|s|-1]);
    }
  }

  lemma BlankIsNone(line: string)
    requires Blank(line)
    ensures !IsAttribution(line)
  {
    SkipBlank(line, "");
    assert line + "" == line;
  }

  lemma {:induction false} MarkedStays(lines: seq<string>)
    requires Count(IsAttribution, lines) > 0
    ensures Tidy(lines) != []
  {
    var (front, last) := (lines[..|lines|-1], lines[|lines|-1]);
    if Blank(last) {
      CountSnoc(front, last);
      assert lines == front + [last];
      BlankIsNone(last);
      MarkedStays(front);
    }
  }

  lemma {:induction false} CountSnoc(lines: seq<string>, last: string)
    ensures Count(IsAttribution, lines + [last]) == Count(IsAttribution, lines) + if IsAttribution(last) then 1 else 0
  {
    if lines != [] {
      assert (lines + [last])[1..] == lines[1..] + [last];
      CountSnoc(lines[1..], last);
    }
  }

  // ---------------------------------------------------------------- what the new message is

  /** b is a with blank lines dropped at the end and the last other line trimmed there. */
  predicate UpToEnd(a: seq<string>, b: seq<string>) {
    && |b| <= |a| && (forall i :: 0 <= i < |b| - 1 ==> b[i] == a[i])
    && (b != [] ==> b[|b|-1] == TrimEnd(a[|b|-1]) != "")
    && forall i :: |b| <= i < |a| ==> Blank(a[i])
  }

  lemma {:induction false} TidyUpToEnd(lines: seq<string>)
    ensures UpToEnd(lines, Tidy(lines))
  {
    if lines != [] {
      if Blank(lines[|lines|-1]) {
        TidyUpToEnd(lines[..|lines|-1]);
      } else {
        TrimNotBlank(lines[|lines|-1]);
      }
    }
  }

  lemma {:induction false} StripTrim(s: string)
    ensures Strip(TrimEnd(s)) == Strip(s)
  {
    if s != "" && IsSpace(s[0]) {
      if Blank(s) {
        TrimBlankTail("", s);
        assert "" + s == s;
        SkipBlank(s, "");
        assert s + "" == s;
      } else {
        assert s == [s[0]] + s[1..] && !Blank(s[1..]);
        TrimTextTail([s[0]], s[1..]);
        StripTrim(s[1..]);
      }
    } else {
      TrimTwice(s);
    }
  }

  lemma {:induction false} TrimTwice(s: string)
    ensures TrimEnd(TrimEnd(s)) == TrimEnd(s)
    ensures TrimEnd(s) == "" || TrimEnd(s)[0] == s[0]
  {
    if s != "" && IsSpace(s[|s|-1]) {
      TrimTwice(s[..|s|-1]);
    }
  }

  lemma TrimIsSame(line: string)
    ensures IsAttribution(TrimEnd(line)) == IsAttribution(line)
  {
    StripTrim(line);
  }

  lemma {:induction false} TidyCounts(lines: seq<string>)
    ensures Count(IsAttribution, Tidy(lines)) == Count(IsAttribution, lines)
  {
    if lines != [] {
      var (front, last) := (lines[..|lines|-1], lines[|lines|-1]);
      assert lines == front + [last];
      CountSnoc(front, last);
      if Blank(last) {
        BlankIsNone(last);
        TidyCounts(front);
      } else {
        CountSnoc(front, TrimEnd(last));
        TrimIsSame(last);
      }
    }
  }

  lemma TrailerIsAttribution()
    ensures IsAttribution(TRAILER) && !Blank(TRAILER) && TrimEnd(TRAILER) == TRAILER && OneLine(TRAILER)
  {
    TrailerChars();
    StripTight(TRAILER);
    SkipBlank(" ", "Ymir");
  }

  lemma TrailerChars()
    ensures !IsSpace(TRAILER[0]) && !IsSpace(TRAILER[16]) && |TRAILER| == 17 && OneLine(TRAILER)
  {
  }

  /** The new message has exactly one attribution. */
  lemma NormalHasOne(lines: seq<string>)
    ensures Count(IsAttribution, Normal(lines)) == 1
  {
    var kept := KeepFirst(IsAttribution, lines, false);
    KeepFirstKeeps(IsAttribution, lines, false);
    TidyCounts(kept);
    if Count(IsAttribution, lines) == 0 {
      TrailerIsAttribution();
      BlankIsNone("");
      CountSnoc([], TRAILER);
      CountSnoc(Tidy(kept), "");
      CountSnoc(Tidy(kept) + [""], TRAILER);
      assert Tidy(kept) + ["", TRAILER] == (Tidy(kept) + [""]) + [TRAILER];
      assert [] + [TRAILER] == [TRAILER];
    }
  }

  lemma {:induction false} FirstIsKept(marked: string -> bool, lines: seq<string>, k: nat)
    requires k < |lines| && marked(lines[k]) && forall i :: 0 <= i < k ==> !marked(lines[i])
    ensures var kept := KeepFirst(marked, lines, false); |kept| > k && kept[..k+1] == lines[..k+1]
  {
    var rest := KeepFirst(marked, lines[1..], marked(lines[0]));
    assert KeepFirst(marked, lines, false) == [lines[0]] + rest;
    if k > 0 {
      FirstIsKept(marked, lines[1..], k - 1);
      assert lines[..k+1] == [lines[0]] + lines[1..][..k];
    }
  }

  /** It is the first of them that stays, where it is. */
  lemma FirstStays(lines: seq<string>, k: nat)
    requires k < |lines| && IsAttribution(lines[k]) && forall i :: 0 <= i < k ==> !IsAttribution(lines[i])
    ensures var out := Normal(lines); |out| > k && out[..k] == lines[..k] && (out[k] == lines[k] || out[k] == TrimEnd(lines[k]))
  {
    var kept := KeepFirst(IsAttribution, lines, false);
    FirstIsKept(IsAttribution, lines, k);
    CountsFirst(lines, k);
    TidyUpToEnd(kept);
    assert kept[..k+1][k] == kept[k] && lines[..k+1][k] == lines[k];
    if |Tidy(kept)| <= k {
      BlankIsNone(kept[k]);
    }
    assert forall i :: 0 <= i < k ==> kept[i] == kept[..k+1][i] == lines[..k+1][i] == lines[i];
  }

  lemma {:induction false} CountsFirst(lines: seq<string>, k: nat)
    requires k < |lines| && IsAttribution(lines[k])
    ensures Count(IsAttribution, lines) > 0
  {
    if k > 0 {
      CountsFirst(lines[1..], k - 1);
    }
  }

  lemma {:induction false} SomeMarked(marked: string -> bool, lines: seq<string>)
    ensures Count(marked, lines) > 0 <==> exists line <- lines :: marked(line)
  {
    if lines != [] {
      SomeMarked(marked, lines[1..]);
      assert lines == [lines[0]] + lines[1..];
    }
  }

  lemma AllBlank(lines: seq<string>)
    ensures Tidy(lines) == [] <==> forall line <- lines :: Blank(line)
  {
    TidyUpToEnd(lines);
    if forall line <- lines :: Blank(line) {
      NoneTidy(lines);
    }
  }

  lemma {:induction false} NoneTidy(lines: seq<string>)
    requires forall line <- lines :: Blank(line)
    ensures Tidy(lines) == []
  {
    if lines != [] {
      NoneTidy(lines[..|lines|-1]);
    }
  }

  /** Every other line stays, in order, but for blanks at the end of the message; what is added, if nothing was
      there, is the attribution, after an empty line unless the message is blank. */
  lemma OthersStay(lines: seq<string>)
    ensures var kept := KeepFirst(IsAttribution, lines, false);
      && Others(IsAttribution, kept) == Others(IsAttribution, lines) && UpToEnd(kept, Tidy(kept))
      && Normal(lines) == if exists line <- lines :: IsAttribution(line) then Tidy(kept)
                          else if forall line <- lines :: Blank(line) then ["Assisted-by: Ymir"]
                          else Tidy(lines) + ["", "Assisted-by: Ymir"]
  {
    var kept := KeepFirst(IsAttribution, lines, false);
    KeepFirstKeeps(IsAttribution, lines, false);
    TidyUpToEnd(kept);
    SomeMarked(IsAttribution, lines);
    if Count(IsAttribution, lines) == 0 {
      OneIsKept(IsAttribution, lines, false);
      AllBlank(lines);
    }
  }

  // ---------------------------------------------------------------- doing it twice

  lemma {:induction false} TidyTwice(lines: seq<string>)
    ensures Tidy(Tidy(lines)) == Tidy(lines)
  {
    if lines != [] {
      if Blank(lines[|lines|-1]) {
        TidyTwice(lines[..|lines|-1]);
      } else {
        TrimNotBlank(lines[|lines|-1]);
        TrimTwice(lines[|lines|-1]);
      }
    }
  }

  lemma NormalIsTidy(lines: seq<string>)
    ensures Normal(lines) != [] && Tidy(Normal(lines)) == Normal(lines)
  {
    var kept := KeepFirst(IsAttribution, lines, false);
    TidyTwice(kept);
    TrailerIsAttribution();
    if Count(IsAttribution, lines) > 0 {
      KeepFirstKeeps(IsAttribution, lines, false);
      MarkedStays(kept);
    }
  }

  lemma {:induction false} OneIsKept(marked: string -> bool, lines: seq<string>, saw: bool)
    requires Count(marked, lines) <= if saw then 0 else 1
    ensures KeepFirst(marked, lines, saw) == lines
  {
    if lines != [] {
      OneIsKept(marked, lines[1..], saw || marked(lines[0]));
    }
  }

  lemma {:induction false} KeptLines(marked: string -> bool, lines: seq<string>, saw: bool)
    ensures forall line <- KeepFirst(marked, lines, saw) :: line in lines
  {
    if lines != [] {
      KeptLines(marked, lines[1..], saw || marked(lines[0]));
    }
  }

  lemma {:induction false} TrimOneLine(s: string)
    requires OneLine(s)
    ensures OneLine(TrimEnd(s))
  {
    if s != "" && IsSpace(s[|s|-1]) {
      TrimOneLine(s[..|s|-1]);
    }
  }

  lemma {:induction false} TidyLines(lines: seq<string>)
    requires forall line <- lines :: OneLine(line)
    ensures forall line <- Tidy(lines) :: OneLine(line)
  {
    if lines != [] {
      if Blank(lines[|lines|-1]) {
        TidyLines(lines[..|lines|-1]);
      } else {
        TrimOneLine(lines[|lines|-1]);
      }
    }
  }

  lemma NormalLines(s: string)
    ensures forall line <- Normal(SplitLines(s)) :: OneLine(line)
  {
    SplitsAreLines(s);
    KeptLines(IsAttribution, SplitLines(s), false);
    TidyLines(KeepFirst(IsAttribution, SplitLines(s), false));
    TrailerIsAttribution();
  }

  /** The lines of the result are the normal ones, and normalising again changes nothing. */
  lemma EnsuredTwice(message: string)
    ensures SplitLines(Ensured(message)) == Normal(SplitLines(TrimEnd(message)))
    ensures Ensured(Ensured(message)) == Ensured(message)
  {
    var lines := SplitLines(TrimEnd(message));
    var out := Normal(lines);
    NormalLines(TrimEnd(message));
    LinesRoundTrip(out);
    NormalIsTidy(lines);
    NormalHasOne(lines);
    UnlinesIsUnsplit(out);
    TrimBlankTail(Unsplit(out), "\n");
    TrimUnsplit(out);
    TidyUpToEnd(out);
    UnsplitRoundTrip(out);
    OneIsKept(IsAttribution, out, false);
  }
}

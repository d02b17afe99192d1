/** Turning the commit message of a Z-stream fix into one for the Y-stream issue. */
module Retarget {
  import opened Common
  import opened Text

  // ---------------------------------------------------------------- Jira keys in a text

  predicate Letter(c: char) { 'a' <= c <= 'z' || 'A' <= c <= 'Z' }

  predicate Alnum(c: char) { Letter(c) || IsDigit(c) }

  /** A word character; all letters outside ASCII count as such. */
  predicate Word(c: char) { Alnum(c) || c == '_' || (c > '\U{7F}' && !IsSpace(c)) }

  function UpperChar(c: char): char { if 'a' <= c <= 'z' then c - 'a' + 'A' else c }

  function Upper(s: string): (r: string)
    ensures |r| == |s| && forall i :: 0 <= i < |s| ==> r[i] == UpperChar(s[i])
  {
    seq(|s|, i requires 0 <= i < |s| => UpperChar(s[i]))
  }

  function Run(holds: char -> bool, s: string): (n: nat)
    ensures n <= |s| && (forall i :: 0 <= i < n ==> holds(s[i])) && (n < |s| ==> !holds(s[n]))
  {
    if s != "" && holds(s[0]) then 1 + Run(holds, s[1..]) else 0
  }

  /** Length of the key at the front: a letter, more letters or digits, a hyphen, digits, a word boundary. */
  function KeyLength(s: string): (n: nat)
    ensures n <= |s|
  {
    var a := Run(Alnum, s);
    if a < 2 || !Letter(s[0]) || a == |s| || s[a] != '-' then 0
    else
      var d := Run(IsDigit, s[a+1..]);
      var n := a + 1 + d;
      if d == 0 || (n < |s| && Word(s[n])) then 0 else n
  }

  /** All keys, in upper case; boundary says whether a word may start at the front. */
  function Keys(s: string, boundary: bool): set<string> {
    if s == "" then {}
    else
      var n := KeyLength(s);
      (if boundary && n > 0 then {Upper(s[..n])} else {}) + Keys(s[1..], !Word(s[0]))
  }

  predicate IsKey(s: string) { s != "" && KeyLength(s) == |s| }

  lemma {:induction false} RunIs(holds: char -> bool, a: string, b: string)
    requires (forall c <- a :: holds(c)) && (b == "" || !holds(b[0]))
    ensures Run(holds, a + b) == |a|
  {
    if a == "" {
      assert a + b == b;
    } else {
      assert (a + b)[1..] == a[1..] + b && a[0] in a;
      RunIs(holds, a[1..], b);
    }
  }

  lemma {:induction false} NoKeyInWord(a: string, b: string)
    requires a != "" && forall c <- a :: Word(c)
    ensures Keys(a + b, false) == Keys(b, false)
  {
    assert (a + b)[1..] == a[1..] + b && a[0] in a;
    if |a| == 1 {
      assert a[1..] + b == b;
    } else {
      NoKeyInWord(a[1..], b);
    }
  }

  lemma NoKeyAtDigits(number: string, rest: string)
    requires number != "" && forall c <- number :: IsDigit(c)
    ensures Keys(number + rest, true) == Keys(rest, false)
  {
    var s := number + rest;
    assert s[0] == number[0] && number[0] in number && !Letter(s[0]) && KeyLength(s) == 0;
    assert Keys(s, true) == Keys(s, false);
    NoKeyInWord(number, rest);
  }

  lemma NoKeyAtHyphen(number: string, rest: string)
    requires number != "" && forall c <- number :: IsDigit(c)
    ensures Keys(['-'] + (number + rest), false) == Keys(rest, false)
  {
    var t := ['-'] + (number + rest);
    assert t[1..] == number + rest && !Word(t[0]);
    NoKeyAtDigits(number, rest);
  }

  /** The parts of a key. */
  lemma KeyParts(y: string) returns (word: string, number: string)
    requires IsKey(y)
    ensures y == word + ['-'] + number && |word| >= 2 && number != "" && Letter(word[0])
    ensures (forall c <- word :: Alnum(c)) && (forall c <- number :: IsDigit(c))
  {
    var a := Run(Alnum, y);
    word, number := y[..a], y[a+1..];
  }

  lemma KeyBefore(y: string, rest: string)
    requires IsKey(y) && (rest == "" || !Word(rest[0]))
    ensures KeyLength(y + rest) == |y|
  {
    var word, number := KeyParts(y);
    var tail := ['-'] + number + rest;
    assert y + rest == word + tail;
    RunIs(Alnum, word, tail);
    assert (y + rest)[|word|+1..] == number + rest;
    RunIs(IsDigit, number, rest);
  }

  lemma KeyTail(word: string, number: string, rest: string)
    requires word != ""
    ensures (word + ['-'] + number + rest)[1..] == word[1..] + (['-'] + (number + rest))
  {
  }

  /** A key followed by a boundary is found, and nothing else in it. */
  lemma KeyFound(y: string, rest: string)
    requires IsKey(y) && (rest == "" || !Word(rest[0]))
    ensures Keys(y + rest, true) == {Upper(y)} + Keys(rest, false)
  {
    KeyBefore(y, rest);
    var word, number := KeyParts(y);
    KeyTail(word, number, rest);
    KeyInside(word, number, rest);
    assert (y + rest)[..|y|] == y && word[0] in word && (y + rest)[0] == word[0];
  }

  lemma KeyInside(word: string, number: string, rest: string)
    requires |word| >= 2 && (forall c <- word :: Alnum(c)) && number != "" && forall c <- number :: IsDigit(c)
    ensures Keys(word[1..] + (['-'] + (number + rest)), false) == Keys(rest, false)
  {
    NoKeyInWord(word[1..], ['-'] + (number + rest));
    NoKeyAtHyphen(number, rest);
  }

  // ---------------------------------------------------------------- replacing one key

  predicate KeyChar(c: char) { Alnum(c) || c == '-' }

  /** z stands at the front, in any case, and ends there. */
  predicate MatchesAt(s: string, z: string) {
    |z| <= |s| && Upper(s[..|z|]) == Upper(z) && (|s| == |z| || !KeyChar(s[|z|]))
  }

  /** Every z between characters that cannot extend it becomes y; free says the front is such a place. */
  function Substitute(s: string, z: string, y: string, free: bool): string
    requires z != ""
    decreases |s|
  {
    if s == "" then ""
    else if free && MatchesAt(s, z) then y + Substitute(s[|z|..], z, y, !KeyChar(z[|z|-1]))
    else [s[0]] + Substitute(s[1..], z, y, !KeyChar(s[0]))
  }

  /** z, in any case, at position i, between characters that cannot extend it. */
  predicate Occurs(s: string, z: string, free: bool, i: nat) {
    && i + |z| <= |s| && (forall j :: 0 <= j < |z| ==> UpperChar(s[i + j]) == UpperChar(z[j]))
    && (if i == 0 then free else !KeyChar(s[i - 1])) && (i + |z| == |s| || !KeyChar(s[i + |z|]))
  }

  lemma MatchOccurs(s: string, z: string, free: bool)
    ensures free && MatchesAt(s, z) <==> Occurs(s, z, free, 0)
  {
    if |z| <= |s| {
      var k := s[..|z|];
      assert forall j :: 0 <= j < |z| ==> Upper(k)[j] == UpperChar(s[j]) && Upper(z)[j] == UpperChar(z[j]);
    }
  }

  lemma OccursNext(s: string, z: string, free: bool, i: nat)
    requires s != ""
    ensures Occurs(s[1..], z, !KeyChar(s[0]), i) <==> Occurs(s, z, free, i + 1)
  {
    if i + 1 + |z| <= |s| {
      assert forall k :: 0 <= k < |s| - 1 ==> s[1..][k] == s[k + 1];
    }
  }

  /** The first occurrence is at i, or there is none and i is the end. */
  predicate FirstOccurrence(s: string, z: string, free: bool, i: nat) {
    i <= |s| && (forall j: nat :: j < i ==> !Occurs(s, z, free, j)) && (i == |s| || Occurs(s, z, free, i))
  }

  lemma FirstInTail(s: string, z: string, free: bool, i: nat)
    requires FirstOccurrence(s, z, free, i) && i > 0
    ensures !(free && MatchesAt(s, z)) && FirstOccurrence(s[1..], z, !KeyChar(s[0]), i - 1)
  {
    MatchOccurs(s, z, free);
    assert !Occurs(s, z, free, 0);
    var (rest, after) := (s[1..], !KeyChar(s[0]));
    forall j: nat | j < i - 1 ensures !Occurs(rest, z, after, j) {
      OccursNext(s, z, free, j);
    }
    OccursNext(s, z, free, i - 1);
  }

  lemma SubstituteStep(s: string, z: string, y: string, free: bool)
    requires z != "" && s != ""
    ensures Substitute(s, z, y, free) ==
      if free && MatchesAt(s, z) then y + Substitute(s[|z|..], z, y, !KeyChar(z[|z|-1]))
      else [s[0]] + Substitute(s[1..], z, y, !KeyChar(s[0]))
  {
  }

  lemma PrependSlices(s: string, y: string, i: nat, n: nat, tail: string)
    requires 0 < i && i + n <= |s|
    ensures [s[0]] + (s[1..][..i-1] + y + tail) == s[..i] + y + tail && s[1..][i-1+n..] == s[i+n..]
  {
    assert s[..i] == [s[0]] + s[1..][..i-1];
  }

  /** Nothing is replaced where z does not occur, and the first occurrence becomes y; then it goes on behind it. */
  lemma {:induction false} SubstituteIs(s: string, z: string, y: string, free: bool, i: nat)
    requires z != "" && FirstOccurrence(s, z, free, i)
    ensures i == |s| ==> Substitute(s, z, y, free) == s
    ensures i < |s| ==> Substitute(s, z, y, free) == s[..i] + y + Substitute(s[i + |z|..], z, y, !KeyChar(z[|z|-1]))
    decreases i
  {
    if s != "" {
      SubstituteStep(s, z, y, free);
      if i > 0 {
        FirstInTail(s, z, free, i);
        SubstituteIs(s[1..], z, y, !KeyChar(s[0]), i - 1);
        if i < |s| {
          PrependSlices(s, y, i, |z|, Substitute(s[i + |z|..], z, y, !KeyChar(z[|z|-1])));
        }
      } else {
        MatchOccurs(s, z, free);
        assert s[..0] + y == y;
      }
    }
  }

  /** A character that is part of no word and no key. */
  predicate Separator(c: char) { !Word(c) && c != '-' }

  predicate Ends(v: string, n: nat) { n == |v| || (n < |v| && Separator(v[n])) }

  /** The only key is z, which stands on its own; other words are free of hyphens. */
  predicate Clean(v: string, z: string)
    requires z != ""
    decreases |v|
  {
    || v == ""
    || (Separator(v[0]) && Clean(v[1..], z))
    || (MatchesAt(v, z) && Ends(v, |z|) && Clean(v[|z|..], z))
    || (Word(v[0]) && Ends(v, Run(Word, v)) && Clean(v[Run(Word, v)..], z))
  }

  lemma NoMatchAtSeparator(v: string, z: string)
    requires IsKey(z) && v != "" && Separator(v[0])
    ensures !MatchesAt(v, z)
  {
    if |z| <= |v| {
      assert Upper(v[..|z|])[0] == UpperChar(v[0]) && Upper(z)[0] == UpperChar(z[0]);
      assert Letter(z[0]);
    }
  }

  lemma SeparatorSplit(v: string, z: string, y: string, free: bool, boundary: bool)
    requires IsKey(z) && v != "" && Separator(v[0])
    ensures Keys(v, boundary) == Keys(v[1..], true)
    ensures Keys(Substitute(v, z, y, free), boundary) == Keys(Substitute(v[1..], z, y, true), true)
  {
    NoMatchAtSeparator(v, z);
    assert v == [v[0]] + v[1..];
  }

  // ---------------------------------------------------------------- words that are no keys

  /** A key has a hyphen before any other character that is not a letter or digit. */
  lemma NoKeyInRun(v: string, z: string, n: nat)
    requires IsKey(z) && 0 < n <= |v| && (forall i :: 0 <= i < n ==> Word(v[i])) && Ends(v, n)
    ensures !MatchesAt(v, z) && KeyLength(v) == 0
  {
    var word, number := KeyParts(z);
    if MatchesAt(v, z) {
      forall i | 0 <= i < |z| ensures UpperChar(v[i]) == UpperChar(z[i]) {
        assert Upper(v[..|z|])[i] == UpperChar(v[i]) && Upper(z)[i] == UpperChar(z[i]);
      }
    }
  }

  function FreeAfter(v: string, n: nat, free: bool): bool
    requires n <= |v|
  {
    if n == 0 then free else !KeyChar(v[n-1])
  }

  lemma {:induction false} WordSplit(v: string, z: string, y: string, n: nat, free: bool)
    requires IsKey(z) && n <= |v| && (forall i :: 0 <= i < n ==> Word(v[i])) && Ends(v, n)
    ensures Substitute(v, z, y, free) == v[..n] + Substitute(v[n..], z, y, FreeAfter(v, n, free))
    decreases n
  {
    if n == 0 {
      assert v[0..] == v;
    } else {
      var (head, rest) := ([v[0]], v[1..]);
      NoKeyInRun(v, z, n);
      WordSplit(rest, z, y, n - 1, !KeyChar(v[0]));
      assert rest[n-1..] == v[n..] && head + rest[..n-1] == v[..n];
      ConcatAssoc(head, rest[..n-1], Substitute(v[n..], z, y, FreeAfter(v, n, free)));
    }
  }

  lemma {:induction false} WordHasNone(a: string, b: string, z: string, boundary: bool)
    requires IsKey(z) && a != "" && (forall c <- a :: Word(c)) && (b == "" || Separator(b[0]))
    ensures Keys(a + b, boundary) == Keys(b, false)
  {
    NoKeyInRun(a + b, z, |a|);
    assert Keys(a + b, boundary) == Keys(a + b, false);
    NoKeyInWord(a, b);
  }

  /** A word without a hyphen stays and is no key. */
  lemma CleanWord(v: string, z: string, y: string)
    requires IsKey(z) && v != "" && Word(v[0]) && Ends(v, Run(Word, v))
    ensures var rest := v[Run(Word, v)..];
      && Keys(v, true) == Keys(rest, false)
      && exists free :: Keys(Substitute(v, z, y, true), true) == Keys(Substitute(rest, z, y, free), false)
  {
    var n := Run(Word, v);
    var (a, rest) := (v[..n], v[n..]);
    var free := FreeAfter(v, n, true);
    WordSplit(v, z, y, n, true);
    assert v == a + rest;
    forall c <- a ensures Word(c) {
    }
    WordHasNone(a, rest, z, true);
    if rest != "" {
      NoMatchAtSeparator(rest, z);
    }
    WordHasNone(a, Substitute(rest, z, y, free), z, true);
  }

  lemma SameKind(c: char, d: char)
    requires UpperChar(c) == UpperChar(d)
    ensures (Alnum(c) <==> Alnum(d)) && (Letter(c) <==> Letter(d)) && (IsDigit(c) <==> IsDigit(d)) && (c == '-' <==> d == '-')
  {
  }

  /** A key in another case is a key. */
  lemma MatchIsKey(k: string, z: string)
    requires IsKey(z) && Upper(k) == Upper(z)
    ensures IsKey(k)
  {
    var word, number := KeyParts(z);
    var n := |word|;
    assert |k| == |Upper(k)| == |Upper(z)| == |z|;
    forall i | 0 <= i < |z| ensures UpperChar(k[i]) == UpperChar(z[i]) {
      assert Upper(k)[i] == UpperChar(k[i]) && Upper(z)[i] == UpperChar(z[i]);
    }
    forall c <- k[..n] ensures Alnum(c) {
      var i :| 0 <= i < n && k[i] == c;
      SameKind(k[i], z[i]);
      assert z[i] == word[i];
    }
    forall c <- k[n+1..] ensures IsDigit(c) {
      var i :| 0 <= i < |k| - n - 1 && k[n+1..][i] == c;
      SameKind(k[n+1+i], z[n+1+i]);
      assert z[n+1+i] == number[i];
    }
    SameKind(k[0], z[0]);
    SameKind(k[n], z[n]);
    assert z[n] == '-' && z[0] == word[0];
    RunIs(Alnum, k[..n], k[n..]);
    assert k == k[..n] + k[n..];
    RunIs(IsDigit, k[n+1..], "");
    assert k[n+1..] + "" == k[n+1..];
  }

  lemma KeyOrEnd(k: string, rest: string)
    requires IsKey(k) && (rest == "" || Separator(rest[0]))
    ensures Keys(k + rest, true) == {Upper(k)} + Keys(rest, false)
  {
    KeyFound(k, rest);
  }

  lemma KeyAtToken(v: string, z: string)
    requires IsKey(z) && MatchesAt(v, z) && Ends(v, |z|)
    ensures Keys(v, true) == {Upper(z)} + Keys(v[|z|..], false)
  {
    var (k, rest) := (v[..|z|], v[|z|..]);
    MatchIsKey(k, z);
    assert v == k + rest;
    KeyOrEnd(k, rest);
  }

  lemma CleanToken(v: string, z: string, y: string)
    requires IsKey(z) && IsKey(y) && v != "" && MatchesAt(v, z) && Ends(v, |z|)
    ensures Keys(Substitute(v, z, y, true), true) == {Upper(y)} + Keys(Substitute(v[|z|..], z, y, false), false)
  {
    KeyOrEnd(y, Substitute(v[|z|..], z, y, false));
  }

  lemma CleanRest(v: string, z: string)
    requires IsKey(z) && v != "" && Clean(v, z)
    ensures Separator(v[0]) ==> Clean(v[1..], z)
    ensures Separator(v[0]) || (MatchesAt(v, z) && Ends(v, |z|) && Clean(v[|z|..], z))
      || (Word(v[0]) && Ends(v, Run(Word, v)) && Clean(v[Run(Word, v)..], z))
  {
    if Separator(v[0]) {
      NoMatchAtSeparator(v, z);
    }
  }

  /** Where z was the only key, y is: before is the text before, after the one that replaced it. */
  predicate Moved(before: string, after: string, z: string, y: string, boundary: bool) {
    && Keys(before, boundary) <= {Upper(z)}
    && Keys(after, boundary) == if Keys(before, boundary) == {} then {} else {Upper(y)}
  }

  lemma {:induction false} CleanSubstitute(v: string, z: string, y: string, free: bool, boundary: bool)
    requires IsKey(z) && IsKey(y) && Clean(v, z) && ((free && boundary) || Ends(v, 0))
    ensures Moved(v, Substitute(v, z, y, free), z, y, boundary)
    decreases |v|
  {
    if v == "" {
      return;
    }
    CleanRest(v, z);
    if Separator(v[0]) {
      SeparatorSplit(v, z, y, free, boundary);
      CleanSubstitute(v[1..], z, y, true, true);
    } else if MatchesAt(v, z) && Ends(v, |z|) && Clean(v[|z|..], z) {
      KeyAtToken(v, z);
      CleanToken(v, z, y);
      CleanSubstitute(v[|z|..], z, y, false, false);
    } else {
      CleanWord(v, z, y);
      var rest := v[Run(Word, v)..];
      var after :| Keys(Substitute(v, z, y, true), true) == Keys(Substitute(rest, z, y, after), false);
      CleanSubstitute(rest, z, y, after, false);
    }
  }
}

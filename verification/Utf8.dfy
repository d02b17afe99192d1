/** UTF-8 (section 3 of RFC 3629) and the decoder that replaces what is malformed. */
module Utf8 {
  import opened Common

  const REPLACEMENT := '\U{FFFD}'

  function EncodeChar(c: char): (r: Bytes)
    ensures 1 <= |r| <= 4
  {
    var n := c as int;
    if n < 0x80 then [n as byte]
    else if n < 0x800 then [(0xC0 + n / 64) as byte, (0x80 + n % 64) as byte]
    else if n < 0x10000 then [(0xE0 + n / 64 / 64) as byte, (0x80 + n / 64 % 64) as byte, (0x80 + n % 64) as byte]
    else [(0xF0 + n / 64 / 64 / 64) as byte, (0x80 + n / 64 / 64 % 64) as byte, (0x80 + n / 64 % 64) as byte, (0x80 + n % 64) as byte]
  }

  function Encode(s: string): Bytes {
    if s == [] then [] else EncodeChar(s[0]) + Encode(s[1..])
  }

  // ---------------------------------------------------------------- well-formed sequences

  /** How many bytes the character takes that starts with this byte; 0 if none does. */
  function Size(first: byte): (n: nat)
    ensures n <= 4
  {
    if first < 0x80 then 1
    else if 0xC2 <= first <= 0xDF then 2
    else if 0xE0 <= first <= 0xEF then 3
    else if 0xF0 <= first <= 0xF4 then 4
    else 0
  }

  predicate Continuation(b: byte) { 0x80 <= b <= 0xBF }

  /** No overlong forms, no surrogates, nothing above U+10FFFF. */
  predicate Second(first: byte, b: byte) {
    && Continuation(b) && (first == 0xE0 ==> b >= 0xA0) && (first == 0xED ==> b <= 0x9F)
    && (first == 0xF0 ==> b >= 0x90) && (first == 0xF4 ==> b <= 0x8F)
  }

  /** Length of the longest prefix that could begin a character. */
  function Matched(b: Bytes): (n: nat)
    requires b != []
    ensures n <= Size(b[0]) && n <= |b|
  {
    var size := Size(b[0]);
    if size <= 1 then size
    else if |b| < 2 || !Second(b[0], b[1]) then 1
    else if size == 2 || |b| < 3 || !Continuation(b[2]) then 2
    else if size == 3 || |b| < 4 || !Continuation(b[3]) then 3
    else 4
  }

  /** A whole character stands at the front. */
  predicate Complete(b: Bytes) { b != [] && Size(b[0]) > 0 && Matched(b) == Size(b[0]) }

  predicate WellFormed(b: Bytes)
    decreases |b|
  {
    b == [] || (Complete(b) && WellFormed(b[Size(b[0])..]))
  }

  function Code(b: Bytes): (n: int)
    requires Complete(b)
    ensures 0 <= n < 0xD800 || 0xE000 <= n < 0x11_0000
  {
    var size := Size(b[0]);
    if size == 1 then b[0] as int
    else if size == 2 then (b[0] as int - 0xC0) * 64 + (b[1] as int - 0x80)
    else if size == 3 then ((b[0] as int - 0xE0) * 64 + (b[1] as int - 0x80)) * 64 + (b[2] as int - 0x80)
    else (((b[0] as int - 0xF0) * 64 + (b[1] as int - 0x80)) * 64 + (b[2] as int - 0x80)) * 64 + (b[3] as int - 0x80)
  }

  /** Decoding with replacement: one U+FFFD for each longest malformed prefix. */
  function Decode(b: Bytes): string
    decreases |b|
  {
    if b == [] then ""
    else if Complete(b) then [Code(b) as char] + Decode(b[Size(b[0])..])
    else [REPLACEMENT] + Decode(b[if Matched(b) == 0 then 1 else Matched(b)..])
  }

  // ---------------------------------------------------------------- round trips

  lemma FrontIsWhole(c: char, rest: Bytes)
    ensures var b := EncodeChar(c) + rest;
      Complete(b) && Size(b[0]) == |EncodeChar(c)| && b[Size(b[0])..] == rest && Code(b) as char == c
  {
    var n := c as int;
    var e := EncodeChar(c);
    var b := e + rest;
    assert b[|e|..] == rest;
    assert forall i :: 0 <= i < |e| ==> b[i] == e[i];
    assert n == n / 64 * 64 + n % 64;
    assert n / 64 == n / 64 / 64 * 64 + n / 64 % 64;
    assert n / 64 / 64 == n / 64 / 64 / 64 * 64 + n / 64 / 64 % 64;
  }

  lemma Digits(q: nat, r: nat)
    requires r < 64
    ensures (q * 64 + r) / 64 == q && (q * 64 + r) % 64 == r
  {
  }

  lemma CodeIsEncoded(b: Bytes)
    requires Complete(b)
    ensures EncodeChar(Code(b) as char) == b[..Size(b[0])]
  {
    var size := Size(b[0]);
    if size == 2 {
      Digits(b[0] as int - 0xC0, b[1] as int - 0x80);
    } else if size == 3 {
      Digits(b[0] as int - 0xE0, b[1] as int - 0x80);
      Digits((b[0] as int - 0xE0) * 64 + (b[1] as int - 0x80), b[2] as int - 0x80);
    } else if size == 4 {
      var q := (b[0] as int - 0xF0) * 64 + (b[1] as int - 0x80);
      Digits(b[0] as int - 0xF0, b[1] as int - 0x80);
      Digits(q, b[2] as int - 0x80);
      Digits(q * 64 + (b[2] as int - 0x80), b[3] as int - 0x80);
    }
  }

  // ---------------------------------------------------------------- what is replaced

  /** The bytes begin the encoding of some character. */
  ghost predicate Begins(b: Bytes) { exists c :: b <= EncodeChar(c) }

  /** The shortest completion of a second byte and of the others. */
  function Filled(b: Bytes): (r: Bytes)
    requires b != [] && 0 < Size(b[0]) && |b| <= Size(b[0])
    ensures b <= r && |r| == Size(b[0])
  {
    var second: byte := if b[0] == 0xE0 then 0xA0 else if b[0] == 0xF0 then 0x90 else 0x80;
    var r := b + [if |b| == 1 then second else 0x80] + [0x80, 0x80];
    r[..Size(b[0])]
  }

  lemma MatchedBegins(b: Bytes)
    requires b != []
    ensures Begins(b[..Matched(b)])
  {
    var front := b[..Matched(b)];
    if front == [] {
      assert front <= EncodeChar('a');
    } else {
      var whole := Filled(front);
      assert Complete(whole);
      CodeIsEncoded(whole);
      assert front <= EncodeChar(Code(whole) as char);
    }
  }

  lemma BeginsIsMatched(b: Bytes, m: nat)
    requires 0 < m <= |b| && Begins(b[..m])
    ensures m <= Matched(b)
  {
    var c :| b[..m] <= EncodeChar(c);
    var e := EncodeChar(c);
    FrontIsWhole(c, []);
    assert e + [] == e;
    assert forall i :: 0 <= i < m ==> b[i] == b[..m][i] == e[i];
  }

  lemma CompleteIsEncoded(b: Bytes)
    ensures Complete(b) <==> exists c :: EncodeChar(c) <= b
  {
    if Complete(b) {
      CodeIsEncoded(b);
      assert EncodeChar(Code(b) as char) <= b;
    }
    if c :| EncodeChar(c) <= b {
      FrontIsWhole(c, b[|EncodeChar(c)|..]);
      assert b == EncodeChar(c) + b[|EncodeChar(c)|..];
    }
  }

  lemma BeginsShorter(b: Bytes, m: nat, n: nat)
    requires m <= n <= |b| && Begins(b[..n])
    ensures Begins(b[..m])
  {
    var c :| b[..n] <= EncodeChar(c);
    assert b[..m] == b[..n][..m];
    assert b[..m] <= EncodeChar(c);
  }

  lemma MatchedIs(b: Bytes, m: nat)
    requires b != [] && m <= |b| && Begins(b[..m]) && (m < |b| ==> !Begins(b[..m+1]))
    ensures Matched(b) == m
  {
    MatchedBegins(b);
    if m > 0 {
      BeginsIsMatched(b, m);
    }
    if Matched(b) > m {
      BeginsShorter(b, m + 1, Matched(b));
    }
  }

  /** Where no character begins, the longest run of bytes that could have begun one, but at least one byte, reads as
      a single U+FFFD. */
  lemma MalformedIsReplaced(b: Bytes, m: nat)
    requires b != [] && m <= |b| && forall c :: !(EncodeChar(c) <= b)
    requires Begins(b[..m]) && (m < |b| ==> !Begins(b[..m+1]))
    ensures Decode(b) == ['\U{FFFD}'] + Decode(b[if m == 0 then 1 else m..])
  {
    CompleteIsEncoded(b);
    MatchedIs(b, m);
  }

  /** Nothing is lost by encoding. */
  lemma {:induction false} DecodeEncode(s: string)
    ensures Decode(Encode(s)) == s && WellFormed(Encode(s))
  {
    if s != [] {
      FrontIsWhole(s[0], Encode(s[1..]));
      DecodeEncode(s[1..]);
    }
  }

  lemma EncodeFront(b: Bytes, rest: string)
    requires Complete(b)
    ensures Encode([Code(b) as char] + rest) == b[..Size(b[0])] + Encode(rest)
  {
    CodeIsEncoded(b);
    assert ([Code(b) as char] + rest)[1..] == rest;
  }

  lemma {:induction false} EncodeDecodeWhole(b: Bytes)
    requires WellFormed(b)
    ensures Encode(Decode(b)) == b
    decreases |b|
  {
    if b != [] {
      var rest := b[Size(b[0])..];
      EncodeDecodeWhole(rest);
      EncodeFront(b, Decode(rest));
      assert b == b[..Size(b[0])] + rest;
    }
  }

  /** Decoding with replacement and encoding again gives the same bytes exactly for valid UTF-8. */
  lemma EncodeDecode(b: Bytes)
    ensures Encode(Decode(b)) == b <==> WellFormed(b)
  {
    if WellFormed(b) {
      EncodeDecodeWhole(b);
    }
    DecodeEncode(Decode(b));
  }
}

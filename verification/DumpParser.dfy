/** Reading a list back from the text valkey-cli prints for it. */
module DumpParser {
  import opened Common
  import opened Text
  import opened Utf8

  // ---------------------------------------------------------------- what valkey-cli prints

  function HexDigit(n: nat): char
    requires n < 16
  {
    if n < 10 then '0' + n as char else 'a' + (n - 10) as char
  }

  predicate Printable(b: byte) { 0x20 <= b <= 0x7E }

  function EscapeByte(b: byte): (r: string)
    ensures 1 <= |r| <= 4
  {
    if b == 0x5C then "\\\\"
    else if b == 0x22 then "\\\""
    else if b == 0x0A then "\\n"
    else if b == 0x0D then "\\r"
    else if b == 0x09 then "\\t"
    else if b == 0x07 then "\\a"
    else if b == 0x08 then "\\b"
    else if Printable(b) then [b as char]
    else ['\\', 'x', HexDigit(b as nat / 16), HexDigit(b as nat % 16)]
  }

  function Escape(e: Bytes): string {
    if e == [] then "" else EscapeByte(e[0]) + Escape(e[1..])
  }

  function Decimal(n: nat): (r: string)
    ensures r != "" && forall c <- r :: '0' <= c <= '9'
  {
    (if n < 10 then "" else Decimal(n / 10)) + ['0' + (n % 10) as char]
  }

  function Spaces(n: int): string { seq(if n < 0 then 0 else n, i => ' ') }

  /** Element number n of a list, with its number right-aligned to the given width. */
  function PrintLine(n: nat, width: nat, e: Bytes): string {
    Spaces(width - |Decimal(n)|) + Decimal(n) + ")" + " " + "\"" + Escape(e) + "\""
  }

  function PrintLines(es: seq<Bytes>, n: nat, width: nat): seq<string> {
    if es == [] then [] else [PrintLine(n, width, es[0])] + PrintLines(es[1..], n + 1, width)
  }

  /** The output of LRANGE without --raw. */
  function PrintList(es: seq<Bytes>): string {
    if es == [] then "(empty array)\n" else Unlines(PrintLines(es, 1, |Decimal(|es|)|))
  }

  // ---------------------------------------------------------------- unescaping

  function HexValue(c: char): Option<nat> {
    if '0' <= c <= '9' then Some((c - '0') as nat)
    else if 'a' <= c <= 'f' then Some((c - 'a') as nat + 10)
    else if 'A' <= c <= 'F' then Some((c - 'A') as nat + 10)
    else None
  }

  /** What int() makes of two characters in base 16, if a byte takes it: besides two digits it allows one digit
      with a blank around it or a sign in front. */
  function HexByte(a: char, b: char): (r: Option<byte>) {
    var (x, y) := (HexValue(a), HexValue(b));
    if x.Some? && y.Some? then Some((x.value * 16 + y.value) as byte)
    else if y.Some? && (IsSpace(a) || a == '+') then Some(y.value as byte)
    else if x.Some? && IsSpace(b) then Some(x.value as byte)
    else if a == '-' && b == '0' then Some(0)
    else None
  }

  function Simple(c: char): Bytes {
    match c
    case 'n' => [0x0A]
    case 't' => [0x09]
    case 'r' => [0x0D]
    case 'a' => [0x07]
    case 'b' => [0x08]
    case 'v' => [0x0B]
    case 'f' => [0x0C]
    case _ => EncodeChar(c)
  }

  /** The first unit of escaped text: its bytes and how many characters it takes. */
  function Unit(s: string): (r: (Bytes, nat))
    requires s != ""
    ensures 1 <= r.1 <= |s|
  {
    if s[0] == '\\' && |s| > 1 then
      if s[1] == 'x' && |s| > 3 && HexByte(s[2], s[3]).Some? then ([HexByte(s[2], s[3]).value], 4)
      else (Simple(s[1]), 2)
    else (EncodeChar(s[0]), 1)
  }

  function Unescaped(s: string): Bytes
    decreases |s|
  {
    if s == "" then [] else Unit(s).0 + Unescaped(s[Unit(s).1..])
  }

  lemma UnitDone(s: string, i: nat, out: Bytes, bytes: Bytes, taken: nat)
    requires i < |s| && (bytes, taken) == Unit(s[i..]) && out + Unescaped(s[i..]) == Unescaped(s)
    ensures i + taken <= |s| && out + bytes + Unescaped(s[i + taken..]) == Unescaped(s)
  {
    assert s[i..][taken..] == s[i + taken..];
    assert out + bytes + Unescaped(s[i + taken..]) == out + Unescaped(s[i..]);
  }

  /** The branches of the scan at position i. */
  method ScanUnit(s: string, i: nat) returns (bytes: Bytes, taken: nat)
    requires i < |s|
    ensures (bytes, taken) == Unit(s[i..])
  {
    var c := s[i];
    if c == '\\' && i + 1 < |s| {
      var next := s[i+1];
      if next == 'x' && i + 3 < |s| {
        var value := HexByte(s[i+2], s[i+3]);
        if value.Some? {
          return [value.value], 4;
        }
      }
      return Simple(next), 2;
    }
    return EncodeChar(c), 1;
  }

  /** The scan over one element: collect the bytes, then decode them together. */
  method UnescapeRediscli(s: string) returns (r: string)
    ensures r == Decode(Unescaped(s))
  {
    var out: Bytes := [];
    var i := 0;
    while i < |s|
      invariant 0 <= i <= |s|
      invariant out + Unescaped(s[i..]) == Unescaped(s)
    {
      var bytes, taken := ScanUnit(s, i);
      UnitDone(s, i, out, bytes, taken);
      out, i := out + bytes, i + taken;
    }
    assert s[i..] == "" && out == Unescaped(s);
    r := Decode(out);
  }

  lemma UnitOfByte(b: byte, rest: string)
    ensures Unit(EscapeByte(b) + rest) == ([b], |EscapeByte(b)|)
  {
    var e := EscapeByte(b);
    var s := e + rest;
    assert forall i :: 0 <= i < |e| ==> s[i] == e[i];
  }

  /** Unescaping what valkey-cli escaped gives the bytes back, whatever they are. */
  lemma {:induction false} UnescapeEscape(e: Bytes)
    ensures Unescaped(Escape(e)) == e
  {
    if e != [] {
      UnescapeEscape(e[1..]);
      UnitOfByte(e[0], Escape(e[1..]));
      assert Escape(e)[|EscapeByte(e[0])|..] == Escape(e[1..]);
    }
  }

  lemma UnescapedFront(front: string, rest: string, bytes: Bytes)
    requires front != "" && Unit(front + rest) == (bytes, |front|)
    ensures Unescaped(front + rest) == bytes + Unescaped(rest)
  {
    assert (front + rest)[|front|..] == rest;
  }

  /** Text that valkey-cli never prints: \v and \f are read, and a backslash at the end stands for itself. */
  lemma RareEscapes(rest: string)
    ensures Unescaped("\\v" + rest) == [0x0B] + Unescaped(rest)
    ensures Unescaped("\\f" + rest) == [0x0C] + Unescaped(rest)
    ensures Unescaped("\\") == [0x5C]
  {
    UnescapedFront("\\v", rest, [0x0B]);
    UnescapedFront("\\f", rest, [0x0C]);
    UnescapedFront("\\", "", [0x5C]);
    assert "\\" + "" == "\\" && Unescaped("") == [];
  }

  /** Any other character stands for itself, with or without a backslash before it. */
  lemma OtherCharacters(c: char, rest: string)
    requires c != '\\' && c != 'x' && c != 'n' && c != 't' && c != 'r' && c != 'a' && c != 'b' && c != 'v' && c != 'f'
    ensures Unescaped(['\\', c] + rest) == Unescaped([c] + rest) == EncodeChar(c) + Unescaped(rest)
  {
    UnescapedFront(['\\', c], rest, EncodeChar(c));
    UnescapedFront([c], rest, EncodeChar(c));
  }

  /** Two hexadecimal digits in either case are a byte. */
  lemma HexIsByte(b: byte, upper: bool, rest: string)
    ensures var (high, low) := (b as nat / 16, b as nat % 16);
      Unescaped(['\\', 'x', DigitIn(high, upper), DigitIn(low, upper)] + rest) == [b] + Unescaped(rest)
  {
    var (high, low) := (b as nat / 16, b as nat % 16);
    DigitValue(high, upper);
    DigitValue(low, upper);
    UnescapedFront(['\\', 'x', DigitIn(high, upper), DigitIn(low, upper)], rest, [b]);
  }

  lemma DigitValue(n: nat, upper: bool)
    requires n < 16
    ensures HexValue(DigitIn(n, upper)) == Some(n)
  {
  }

  function DigitIn(n: nat, upper: bool): char
    requires n < 16
  {
    if upper && n >= 10 then 'A' + (n - 10) as char else HexDigit(n)
  }
}

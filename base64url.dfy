/**
 * Go's `base64.URLEncoding`: the URL- and filename-safe alphabet of section 5
 * of RFC 4648, with '=' padding.  `DecodeString` skips carriage returns and
 * line feeds wherever they stand, demands whole four-character quanta, accepts
 * padding only in the last quantum and ignores the unused low bits of a
 * padded quantum.
 */
module Base64Url {
  import opened Wrappers
  import opened Bytes

  /** The six-bit value a character of the alphabet stands for. */
  function SextetOf(c: char): (r: Option<nat>)
    ensures r.Some? ==> r.value < 64
    ensures c == '=' || c == '\r' || c == '\n' ==> r.None?
  {
    if 'A' <= c <= 'Z' then Some(c as int - 'A' as int)
    else if 'a' <= c <= 'z' then Some(c as int - 'a' as int + 26)
    else if '0' <= c <= '9' then Some(c as int - '0' as int + 52)
    else if c == '-' then Some(62)
    else if c == '_' then Some(63)
    else None
  }

  /** The character of the alphabet for a six-bit value. */
  function SextetChar(v: nat): (c: char)
    requires v < 64
    ensures SextetOf(c) == Some(v)
  {
    if v < 26 then ('A' as int + v) as char
    else if v < 52 then ('a' as int + v - 26) as char
    else if v < 62 then ('0' as int + v - 52) as char
    else if v == 62 then '-'
    else '_'
  }

  predicate IsLineBreak(c: char) { c == '\r' || c == '\n' }

  /** The text with every carriage return and line feed removed. */
  function StripLineBreaks(s: string): (r: string)
    ensures forall c :: c in r ==> c in s && !IsLineBreak(c)
    ensures (forall c :: c in s ==> !IsLineBreak(c)) ==> r == s
  {
    if |s| == 0 then ""
    else
      assert s == [s[0]] + s[1..];
      (if IsLineBreak(s[0]) then "" else [s[0]]) + StripLineBreaks(s[1..])
  }

  /** The first byte of a quantum: six bits of `a`, two of `b`. */
  function Byte0(a: nat, b: nat): byte
    requires a < 64 && b < 64
  {
    a * 4 + b / 16
  }

  /** The second byte of a quantum: four bits of `b`, four of `c`. */
  function Byte1(b: nat, c: nat): byte
    requires b < 64 && c < 64
  {
    (b % 16) * 16 + c / 4
  }

  /** The third byte of a quantum: two bits of `c`, six of `d`. */
  function Byte2(c: nat, d: nat): byte
    requires c < 64 && d < 64
  {
    (c % 4) * 64 + d
  }

  /** Decoding of text without line breaks, one four-character quantum at a time. */
  function DecodeQuanta(s: string): Option<seq<byte>>
    decreases |s|
  {
    if |s| == 0 then Some([])
    else if |s| < 4 then None
    else
      var a := SextetOf(s[0]);
      var b := SextetOf(s[1]);
      var c := SextetOf(s[2]);
      var d := SextetOf(s[3]);
      if a.None? || b.None? then None
      else if s[2] == '=' then
        if s[3] == '=' && |s| == 4 then Some([Byte0(a.value, b.value)]) else None
      else if c.None? then None
      else if s[3] == '=' then
        if |s| == 4 then Some([Byte0(a.value, b.value), Byte1(b.value, c.value)]) else None
      else if d.None? then None
      else
        match DecodeQuanta(s[4..])
        case None => None
        case Some(rest) =>
          Some([Byte0(a.value, b.value), Byte1(b.value, c.value), Byte2(c.value, d.value)] + rest)
  }

  /** Go's `base64.URLEncoding.DecodeString`; `None` stands for its error. */
  function DecodeString(s: string): Option<seq<byte>> {
    DecodeQuanta(StripLineBreaks(s))
  }

  /** Go's `base64.URLEncoding.EncodeToString`. */
  function Encode(b: seq<byte>): (s: string)
    ensures |s| == (|b| + 2) / 3 * 4
  {
    if |b| == 0 then ""
    else if |b| == 1 then
      [SextetChar(b[0] / 4), SextetChar(b[0] % 4 * 16), '=', '=']
    else if |b| == 2 then
      [SextetChar(b[0] / 4), SextetChar(b[0] % 4 * 16 + b[1] / 16), SextetChar(b[1] % 16 * 4), '=']
    else
      [SextetChar(b[0] / 4), SextetChar(b[0] % 4 * 16 + b[1] / 16),
       SextetChar(b[1] % 16 * 4 + b[2] / 64), SextetChar(b[2] % 64)]
      + Encode(b[3..])
  }


  lemma SplitByte0(x: byte, y: byte)
    ensures x % 4 * 16 + y / 16 < 64
    ensures Byte0(x / 4, x % 4 * 16 + y / 16) == x
  {
  }

  lemma SplitByte1Of(x: byte, y: byte, z: byte)
    ensures x % 4 * 16 + y / 16 < 64 && y % 16 * 4 + z / 64 < 64
    ensures Byte1(x % 4 * 16 + y / 16, y % 16 * 4 + z / 64) == y
  {
    var b := x % 4 * 16 + y / 16;
    assert b % 16 == y / 16;
  }

  lemma SplitByte2(y: byte, z: byte)
    ensures y % 16 * 4 + z / 64 < 64
    ensures Byte2(y % 16 * 4 + z / 64, z % 64) == z
  {
    var c := y % 16 * 4 + z / 64;
    assert c % 4 == z / 64;
  }

  function Quantum(x: byte, y: byte, z: byte): (q: string)
    ensures |q| == 4
  {
    [SextetChar(x / 4), SextetChar(x % 4 * 16 + y / 16),
     SextetChar(y % 16 * 4 + z / 64), SextetChar(z % 64)]
  }

  lemma QuantumDecodes(x: byte, y: byte, z: byte, rest: string, t: seq<byte>)
    requires DecodeQuanta(rest) == Some(t)
    ensures DecodeQuanta(Quantum(x, y, z) + rest) == Some([x, y, z] + t)
  {
    var s := Quantum(x, y, z) + rest;
    SplitByte0(x, y);
    SplitByte1Of(x, y, z);
    SplitByte2(y, z);
    assert s[4..] == rest;
    assert s[2] != '=' && s[3] != '=';
  }

  lemma OneByteDecodes(x: byte)
    ensures DecodeQuanta(Encode([x])) == Some([x])
  {
    SplitByte0(x, 0);
    var s := Encode([x]);
    assert s == [SextetChar(x / 4), SextetChar(x % 4 * 16 + 0 / 16), '=', '='];
  }

  lemma TwoBytesDecode(x: byte, y: byte)
    ensures DecodeQuanta(Encode([x, y])) == Some([x, y])
  {
    SplitByte0(x, y);
    SplitByte1Of(x, y, 0);
    var s := Encode([x, y]);
    assert s == [SextetChar(x / 4), SextetChar(x % 4 * 16 + y / 16), SextetChar(y % 16 * 4 + 0 / 64), '='];
  }

  lemma {:induction false} DecodeQuantaEncode(b: seq<byte>)
    ensures DecodeQuanta(Encode(b)) == Some(b)
  {
    if |b| == 0 {
    } else if |b| == 1 {
      OneByteDecodes(b[0]);
      assert b == [b[0]];
    } else if |b| == 2 {
      TwoBytesDecode(b[0], b[1]);
      assert b == [b[0], b[1]];
    } else {
      var rest := Encode(b[3..]);
      DecodeQuantaEncode(b[3..]);
      assert Encode(b) == Quantum(b[0], b[1], b[2]) + rest;
      QuantumDecodes(b[0], b[1], b[2], rest, b[3..]);
      assert b == [b[0], b[1], b[2]] + b[3..];
    }
  }

  lemma {:induction false} EncodeHasNoLineBreaks(b: seq<byte>)
    ensures forall c :: c in Encode(b) ==> !IsLineBreak(c)
  {
    if |b| >= 3 {
      EncodeHasNoLineBreaks(b[3..]);
      assert Encode(b) == Quantum(b[0], b[1], b[2]) + Encode(b[3..]);
    }
  }

  /** Decoding what `Encode` wrote gives back the bytes. */
  lemma DecodeEncode(b: seq<byte>)
    ensures DecodeString(Encode(b)) == Some(b)
  {
    EncodeHasNoLineBreaks(b);
    DecodeQuantaEncode(b);
  }

  /** Text that is not made of whole four-character quanta is refused. */
  lemma {:induction false} PartialQuantumRejected(s: string)
    requires |s| % 4 != 0
    ensures DecodeQuanta(s).None?
    decreases |s|
  {
    if |s| >= 4 {
      PartialQuantumRejected(s[4..]);
    }
  }

  /** Text holding a character outside the alphabet, other than '=' and line breaks, is refused. */
  lemma {:induction false} ForeignCharRejected(s: string, i: nat)
    requires i < |s| && SextetOf(s[i]).None? && s[i] != '='
    ensures DecodeQuanta(s).None?
    decreases |s|
  {
    if |s| >= 4 && i >= 4 {
      ForeignCharRejected(s[4..], i - 4);
    }
  }

  lemma {:induction false} StripConcat(x: string, y: string)
    ensures StripLineBreaks(x + y) == StripLineBreaks(x) + StripLineBreaks(y)
  {
    if |x| > 0 {
      assert (x + y)[1..] == x[1..] + y;
      StripConcat(x[1..], y);
    } else {
      assert x + y == y;
    }
  }

  lemma StripLineBreak(c: char)
    requires IsLineBreak(c)
    ensures StripLineBreaks([c]) == ""
  {
    assert [c][1..] == "";
  }

  /** A line break anywhere in the text changes nothing in what it decodes to. */
  lemma LineBreakIgnored(x: string, c: char, y: string)
    requires IsLineBreak(c)
    ensures DecodeString(x + [c] + y) == DecodeString(x + y)
  {
    var sx, sy := StripLineBreaks(x), StripLineBreaks(y);
    StripLineBreak(c);
    calc {
      StripLineBreaks(x + [c] + y);
      { StripConcat(x + [c], y); }
      StripLineBreaks(x + [c]) + sy;
      { StripConcat(x, [c]); }
      sx + StripLineBreaks([c]) + sy;
      { assert sx + "" == sx; }
      sx + sy;
      { StripConcat(x, y); }
      StripLineBreaks(x + y);
    }
  }

  /** Padding may close only the last quantum: text after a padded quantum is refused. */
  lemma PaddingEndsText(s: string)
    requires |s| > 4 && s[3] == '='
    ensures DecodeQuanta(s).None?
  {
  }
}

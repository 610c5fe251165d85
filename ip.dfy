/**
 * Textual IP addresses with the meaning of Go's `net.ParseIP`, `IP.To4` and
 * `IP.IsLoopback`.  Like Go, a parsed address is always 16 bytes; an IPv4
 * address is held in its IPv4-mapped IPv6 form (`::ffff:a.b.c.d`).
 */
module IpAddr {
  import opened Wrappers
  import opened Bytes
  import opened Text

  /** The first 12 bytes of an IPv4-mapped IPv6 address. */
  const V4InV6Prefix: seq<byte> := [0, 0, 0, 0, 0, 0, 0, 0, 0, 0, 0xff, 0xff]

  /** `::1` */
  const IPv6Loopback: seq<byte> := [0, 0, 0, 0, 0, 0, 0, 0, 0, 0, 0, 0, 0, 0, 0, 1]

  /** One decimal field of a dotted quad: no sign, no leading zero, at most 255. */
  predicate IsOctet(f: string) {
    |f| >= 1 && AllDigits(f) && (|f| > 1 ==> f[0] != '0') && DecimalValue(f) <= 255
  }

  /** Dotted-quad IPv4 text to its four bytes. */
  function ParseIPv4(s: string): (r: Option<seq<byte>>)
    ensures r.Some? ==> |r.value| == 4
    ensures r.Some? <==> |Split(s, '.')| == 4 && forall k :: 0 <= k < 4 ==> IsOctet(Split(s, '.')[k])
  {
    var f := Split(s, '.');
    if |f| == 4 && IsOctet(f[0]) && IsOctet(f[1]) && IsOctet(f[2]) && IsOctet(f[3]) then
      Some([DecimalValue(f[0]), DecimalValue(f[1]), DecimalValue(f[2]), DecimalValue(f[3])])
    else None
  }

  /** One group of an IPv6 address: one to four hexadecimal digits. */
  predicate IsGroup(g: string) {
    1 <= |g| <= 4 && AllHexDigits(g)
  }

  /**
   * The bytes of colon-separated groups; when `v4Tail` holds, the last group
   * may instead be a dotted quad, which stands for two groups.
   */
  function GroupBytes(groups: seq<string>, v4Tail: bool): (r: Option<seq<byte>>)
    ensures r.Some? ==> |r.value| % 2 == 0
  {
    if |groups| == 0 then Some([])
    else if |groups| == 1 && v4Tail && '.' in groups[0] then ParseIPv4(groups[0])
    else if IsGroup(groups[0]) then
      match GroupBytes(groups[1..], v4Tail)
      case None => None
      case Some(rest) =>
        HexValueBound(groups[0]);
        var n := HexValue(groups[0]);
        Some([n / 256, n % 256] + rest)
    else None
  }

  /** The index of the first `::` in `s`. */
  function FindDoubleColon(s: string): (r: Option<nat>)
    ensures r.Some? ==> r.value + 1 < |s| && s[r.value] == ':' && s[r.value + 1] == ':'
  {
    if |s| < 2 then None
    else if s[0] == ':' && s[1] == ':' then Some(0)
    else match FindDoubleColon(s[1..])
      case None => None
      case Some(i) => Some(i + 1)
  }

  /** The bytes of the groups on one side of `::`; an empty side has none. */
  function SideBytes(s: string, v4Tail: bool): Option<seq<byte>> {
    if s == "" then Some([]) else GroupBytes(Split(s, ':'), v4Tail)
  }

  /**
   * IPv6 text to its 16 bytes: eight groups, or fewer around a single `::`
   * that stands for at least one group of zeros.
   */
  function ParseIPv6(s: string): (r: Option<seq<byte>>)
    ensures r.Some? ==> |r.value| == 16
  {
    match FindDoubleColon(s)
    case None =>
      (match GroupBytes(Split(s, ':'), true)
       case Some(b) => if |b| == 16 then Some(b) else None
       case None => None)
    case Some(i) =>
      var left := s[..i];
      var right := s[i + 2..];
      if FindDoubleColon(right).Some? then None
      else match (SideBytes(left, false), SideBytes(right, true))
        case (Some(lb), Some(rb)) =>
          if |lb| + |rb| <= 14 then Some(lb + seq(16 - |lb| - |rb|, _ => 0) + rb) else None
        case _ => None
  }

  /** The first `.` or `:` of `s`, which decides how Go's `net.ParseIP` reads it. */
  function FirstSeparator(s: string): (r: Option<char>)
    ensures r.Some? ==> r.value in s && (r.value == '.' || r.value == ':')
    ensures r.None? ==> '.' !in s && ':' !in s
  {
    if |s| == 0 then None
    else if s[0] == '.' || s[0] == ':' then Some(s[0])
    else FirstSeparator(s[1..])
  }

  /** Go's `net.ParseIP`: the 16-byte form of a textual address, or nothing. */
  function ParseIP(s: string): (r: Option<seq<byte>>)
    ensures r.Some? ==> |r.value| == 16
    ensures r.Some? ==> '.' in s || ':' in s
  {
    match FirstSeparator(s)
    case Some('.') =>
      (match ParseIPv4(s)
       case Some(b) => Some(V4InV6Prefix + b)
       case None => None)
    case Some(_) => ParseIPv6(s)
    case None => None
  }

  /** Go's `IP.To4`: the four bytes of an IPv4 (or IPv4-mapped) address. */
  function To4(ip: seq<byte>): (r: Option<seq<byte>>)
    ensures r.Some? ==> |r.value| == 4
  {
    if |ip| == 4 then Some(ip)
    else if |ip| == 16 && ip[..12] == V4InV6Prefix then Some(ip[12..])
    else None
  }

  /** Go's `IP.IsLoopback`: 127.0.0.0/8 or `::1`. */
  predicate IsLoopback(ip: seq<byte>) {
    match To4(ip)
    case Some(b) => b[0] == 127
    case None => ip == IPv6Loopback
  }

  /** The text `net.ParseIP` accepts as a loopback address. */
  predicate IsLoopbackText(s: string) {
    match ParseIP(s)
    case Some(ip) => IsLoopback(ip)
    case None => false
  }

  /** Dotted-quad text of four bytes, as Go's `IP.String` writes an IPv4 address. */
  function FormatIPv4(b: seq<byte>): string
    requires |b| == 4
  {
    Join([Decimal(b[0]), Decimal(b[1]), Decimal(b[2]), Decimal(b[3])], '.')
  }

  lemma DecimalIsOctet(n: byte)
    ensures IsOctet(Decimal(n)) && DecimalValue(Decimal(n)) == n && '.' !in Decimal(n)
  {
    var d := Decimal(n);
    forall k | 0 <= k < |d| ensures d[k] != '.' { assert IsDigit(d[k]); }
  }

  /** Reading back the dotted quad of any four bytes gives those bytes. */
  lemma {:induction false} ParseFormatIPv4(b: seq<byte>)
    requires |b| == 4
    ensures ParseIPv4(FormatIPv4(b)) == Some(b)
  {
    var f := [Decimal(b[0]), Decimal(b[1]), Decimal(b[2]), Decimal(b[3])];
    DecimalIsOctet(b[0]);
    DecimalIsOctet(b[1]);
    DecimalIsOctet(b[2]);
    DecimalIsOctet(b[3]);
    assert forall k :: 0 <= k < 4 ==> '.' !in f[k] && IsOctet(f[k]) && DecimalValue(f[k]) == b[k];
    SplitJoin(f, '.');
    assert Split(FormatIPv4(b), '.') == f;
    assert ParseIPv4(FormatIPv4(b)) == Some([DecimalValue(f[0]), DecimalValue(f[1]), DecimalValue(f[2]), DecimalValue(f[3])]);
    assert b == [b[0], b[1], b[2], b[3]];
  }

  /** A dotted quad is a loopback address exactly when its first byte is 127. */
  lemma {:induction false} LoopbackIPv4(b: seq<byte>)
    requires |b| == 4
    ensures ParseIP(FormatIPv4(b)) == Some(V4InV6Prefix + b)
    ensures IsLoopbackText(FormatIPv4(b)) <==> b[0] == 127
  {
    var s := FormatIPv4(b);
    ParseFormatIPv4(b);
    var d0 := Decimal(b[0]);
    DecimalIsOctet(b[0]);
    assert s == d0 + ['.'] + Join([Decimal(b[1]), Decimal(b[2]), Decimal(b[3])], '.');
    FirstSeparatorAt(d0, '.', Join([Decimal(b[1]), Decimal(b[2]), Decimal(b[3])], '.'));
    assert (V4InV6Prefix + b)[..12] == V4InV6Prefix;
    assert (V4InV6Prefix + b)[12..] == b;
  }

  lemma {:induction false} FirstSeparatorAt(x: string, c: char, y: string)
    requires c == '.' || c == ':'
    requires '.' !in x && ':' !in x
    ensures FirstSeparator(x + [c] + y) == Some(c)
    decreases |x|
  {
    if |x| > 0 {
      assert (x + [c] + y)[1..] == x[1..] + [c] + y;
      FirstSeparatorAt(x[1..], c, y);
    }
  }

  /** `::1` is the IPv6 loopback address. */
  lemma IPv6LoopbackText()
    ensures ParseIP("::1") == Some(IPv6Loopback) && IsLoopbackText("::1")
  {
    assert FirstSeparator("::1") == Some(':');
    assert FindDoubleColon("::1") == Some(0);
    assert "::1"[2..] == "1";
    assert FindDoubleColon("1") == None;
    assert Split("1", ':') == ["1"] by { CutAbsent("1", ':'); }
    assert HexValue("1") == 1 by { assert "1"[..0] == ""; }
    assert GroupBytes(["1"], true) == Some([0, 1]) by {
      assert '.' !in "1";
      assert IsGroup("1");
      assert ["1"][1..] == [];
      assert GroupBytes([], true) == Some([]);
      assert [1 / 256, 1 % 256] + [] == [0, 1];
    }
    assert SideBytes("1", true) == Some([0, 1]);
    assert SideBytes("", false) == Some([]);
    assert [] + seq(14, _ => 0) + [0, 1] == IPv6Loopback;
    assert ParseIPv6("::1") == Some(IPv6Loopback);
    assert IPv6Loopback[..12] != V4InV6Prefix by { assert IPv6Loopback[10] != V4InV6Prefix[10]; }
  }

  lemma Decimal127()
    ensures Decimal(127) == "127" && Decimal(0) == "0" && Decimal(1) == "1"
  {
    assert Decimal(1) == "1" && DigitChar(2) == '2' && DigitChar(7) == '7';
    assert Decimal(12) == Decimal(1) + [DigitChar(2)];
    assert Decimal(127) == Decimal(12) + [DigitChar(7)];
  }

  lemma FormatLocalhost()
    ensures FormatIPv4([127, 0, 0, 1]) == "127.0.0.1"
  {
    Decimal127();
    var pieces := ["127", "0", "0", "1"];
    assert Join(pieces[3..], '.') == "1";
    assert Join(pieces[2..], '.') == "0" + "." + "1";
    assert Join(pieces[1..], '.') == "0" + "." + "0.1";
    assert Join(pieces, '.') == "127" + "." + "0.0.1";
  }

  /** "127.0.0.1" is read as a loopback address. */
  lemma LocalhostIsLoopback()
    ensures IsLoopbackText("127.0.0.1")
  {
    FormatLocalhost();
    LoopbackIPv4([127, 0, 0, 1]);
  }
}

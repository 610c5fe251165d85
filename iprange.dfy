/**
 * The allow-list of the agent: a comma-separated list of entries, each a
 * single address or an address block in CIDR notation, read once at start-up.
 * Membership follows Go's `net.ParseCIDR` and `IPNet.Contains`: an IPv4
 * block holds IPv4 (and IPv4-mapped) addresses only, an IPv6 block IPv6 ones.
 */
module IpRange {
  import opened Wrappers
  import opened Bytes
  import opened Text
  import opened IpAddr

  /** Go's `net.IPNet`: a masked network number and the length of its prefix. */
  datatype Net = Net(number: seq<byte>, ones: nat)

  datatype Entry = Single(ip: seq<byte>) | Block(net: Net)

  /** A parsed allow-list. */
  type Range = seq<Entry>

  /** How many of the `ones` leading mask bits fall in byte `i`. */
  function OnesIn(ones: nat, i: nat): (k: nat)
    ensures k <= 8
  {
    if ones <= 8 * i then 0 else if ones >= 8 * i + 8 then 8 else ones - 8 * i
  }

  /** `x` with its `j` lowest bits cleared. */
  function ClearLow(x: nat, j: nat): (r: nat)
    ensures r <= x
  {
    if j == 0 then x else 2 * ClearLow(x / 2, j - 1)
  }

  /** A byte with all but its `k` leading bits cleared. */
  function MaskByte(x: byte, k: nat): byte
    requires k <= 8
  {
    ClearLow(x, 8 - k)
  }

  /** Go's `IP.Mask` with a mask of `ones` leading bits. */
  function Mask(ip: seq<byte>, ones: nat): (r: seq<byte>)
    ensures |r| == |ip|
    ensures forall i :: 0 <= i < |ip| ==> r[i] == MaskByte(ip[i], OnesIn(ones, i))
  {
    seq(|ip|, i requires 0 <= i < |ip| => MaskByte(ip[i], OnesIn(ones, i)))
  }

  /** Go's `net.ParseCIDR`: an address, '/', and a decimal prefix length within the address size. */
  function ParseCIDR(s: string): (r: Option<Net>)
    ensures r.Some? ==> '/' in s
    ensures r.Some? ==> (|r.value.number| == 4 && r.value.ones <= 32) || (|r.value.number| == 16 && r.value.ones <= 128)
  {
    var (addr, mask) := Cut(s, '/');
    if mask.None? then None
    else
      match ParseIP(addr)
      case None => None
      case Some(ip) =>
        var bits := if FirstSeparator(addr) == Some('.') then 32 else 128;
        if |mask.value| == 0 || !AllDigits(mask.value) || DecimalValue(mask.value) > bits then None
        else
          var n := DecimalValue(mask.value);
          if bits == 32 then
            (match To4(ip)
             case Some(b) => Some(Net(Mask(b, n), n))
             case None => None)
          else Some(Net(Mask(ip, n), n))
  }

  /** The number and mask Go's `IPNet.Contains` compares with: an IPv4-mapped network becomes IPv4. */
  function NetworkNumber(n: Net): (r: (seq<byte>, nat))
  {
    match To4(n.number)
    case Some(b) => (b, if |n.number| == 4 then n.ones else if n.ones >= 96 then n.ones - 96 else 0)
    case None => (n.number, n.ones)
  }

  /** Go's `IPNet.Contains`. */
  predicate Contains(n: Net, ip: seq<byte>) {
    var (number, ones) := NetworkNumber(n);
    var x := if To4(ip).Some? then To4(ip).value else ip;
    |x| == |number| && Mask(x, ones) == Mask(number, ones)
  }

  predicate IsSpace(c: char) {
    c == ' ' || c == '\t' || c == '\n' || c == '\r' || c as int == 0x0b || c as int == 0x0c
  }

  /** Go's `strings.TrimSpace` on ASCII white space. */
  function TrimSpace(s: string): (r: string)
    ensures |r| <= |s|
    ensures |r| > 0 ==> !IsSpace(r[0]) && !IsSpace(r[|r| - 1])
    decreases |s|
  {
    if |s| > 0 && IsSpace(s[0]) then TrimSpace(s[1..])
    else if |s| > 0 && IsSpace(s[|s| - 1]) then TrimSpace(s[..|s| - 1])
    else s
  }

  /** One entry of the list: a block when it holds '/', a single address otherwise. */
  function ParseEntry(s: string): (r: Option<Entry>)
    ensures r.Some? ==> TrimSpace(s) != ""
  {
    var e := TrimSpace(s);
    if '/' in e then
      (match ParseCIDR(e)
       case Some(n) => Some(Block(n))
       case None => None)
    else
      (match ParseIP(e)
       case Some(ip) => Some(Single(ip))
       case None => None)
  }

  function ParseEntries(pieces: seq<string>): (r: Option<Range>)
    ensures r.Some? <==> forall i :: 0 <= i < |pieces| ==> ParseEntry(pieces[i]).Some?
    ensures r.Some? ==> |r.value| == |pieces|
    ensures r.Some? ==> forall i :: 0 <= i < |pieces| ==> r.value[i] == ParseEntry(pieces[i]).value
  {
    if |pieces| == 0 then Some([])
    else
      match ParseEntry(pieces[0])
      case None => None
      case Some(e) =>
        match ParseEntries(pieces[1..])
        case None => None
        case Some(rest) => Some([e] + rest)
  }

  /** `iprange.New`: the allow-list of a specification, or nothing when any entry is malformed. */
  function New(spec: string): (r: Option<Range>)
    ensures r.Some? ==> |r.value| >= 1
  {
    ParseEntries(Split(spec, ','))
  }

  predicate Matches(e: Entry, ip: seq<byte>) {
    match e
    case Single(a) => a == ip
    case Block(n) => Contains(n, ip)
  }

  /** `Range.IncludeStr`: the text is an address and some entry matches it. */
  predicate IncludeStr(r: Range, s: string) {
    match ParseIP(s)
    case None => false
    case Some(ip) => exists i :: 0 <= i < |r| && Matches(r[i], ip)
  }

  // ------------------------------------------------------------ properties

  /** An address that does not parse is never included. */
  lemma UnparsableExcluded(r: Range, s: string)
    requires ParseIP(s).None?
    ensures !IncludeStr(r, s)
  {
  }

  /** An empty specification is refused, so the agent never runs with an empty list. */
  lemma EmptySpecRefused()
    ensures New("").None?
  {
    SplitJoin([""], ',');
    assert ParseEntry("").None?;
  }

  /** A specification with a blank entry, such as a trailing comma, is refused. */
  lemma BlankEntryRefused(spec: string, i: nat)
    requires i < |Split(spec, ',')| && TrimSpace(Split(spec, ',')[i]) == ""
    ensures New(spec).None?
  {
  }

  /** A list of one address includes exactly the texts that parse to that address. */
  lemma SingleAddressIncludes(a: string, s: string)
    requires ',' !in a && '/' !in TrimSpace(a) && ParseIP(TrimSpace(a)).Some?
    ensures New(a).Some?
    ensures IncludeStr(New(a).value, s) <==> ParseIP(s) == ParseIP(TrimSpace(a))
  {
    SplitJoin([a], ',');
    assert Split(a, ',') == [a];
  }

  lemma {:induction false} ClearLowIdempotent(x: nat, j: nat)
    ensures ClearLow(ClearLow(x, j), j) == ClearLow(x, j)
  {
    if j > 0 {
      var c := ClearLow(x / 2, j - 1);
      ClearLowIdempotent(x / 2, j - 1);
      assert (2 * c) / 2 == c;
    }
  }

  lemma MaskByteIdempotent(x: byte, k: nat)
    requires k <= 8
    ensures MaskByte(MaskByte(x, k), k) == MaskByte(x, k)
  {
    ClearLowIdempotent(x, 8 - k);
  }

  /** Masking twice with the same prefix is masking once. */
  lemma MaskIdempotent(ip: seq<byte>, ones: nat)
    ensures Mask(Mask(ip, ones), ones) == Mask(ip, ones)
  {
    forall i | 0 <= i < |ip| ensures Mask(Mask(ip, ones), ones)[i] == Mask(ip, ones)[i] {
      MaskByteIdempotent(ip[i], OnesIn(ones, i));
    }
  }

  /** A prefix covering every bit keeps the whole address. */
  lemma MaskFull(ip: seq<byte>, ones: nat)
    requires ones >= 8 * |ip|
    ensures Mask(ip, ones) == ip
  {
    forall i | 0 <= i < |ip| ensures Mask(ip, ones)[i] == ip[i] {
      assert OnesIn(ones, i) == 8;
    }
  }

  lemma FormatIPv4Chars(b: seq<byte>)
    requires |b| == 4
    ensures forall c :: c in FormatIPv4(b) ==> IsDigit(c) || c == '.'
    ensures FormatIPv4(b) != "" && IsDigit(FormatIPv4(b)[0]) && IsDigit(FormatIPv4(b)[|FormatIPv4(b)| - 1])
    ensures FirstSeparator(FormatIPv4(b)) == Some('.')
  {
    var d := [Decimal(b[0]), Decimal(b[1]), Decimal(b[2]), Decimal(b[3])];
    var tail := Join(d[1..], '.');
    assert FormatIPv4(b) == d[0] + ['.'] + tail;
    assert Join(d[2..], '.') == d[2] + ['.'] + Join(d[3..], '.');
    assert tail == d[1] + ['.'] + Join(d[2..], '.');
    assert Join(d[3..], '.') == d[3];
    forall k | 0 <= k < 4 ensures forall c :: c in d[k] ==> IsDigit(c) {
      forall c | c in d[k] ensures IsDigit(c) {
        var j :| 0 <= j < |d[k]| && d[k][j] == c;
      }
    }
    assert ':' !in d[0] && '.' !in d[0];
    FirstSeparatorAt(d[0], '.', tail);
  }

  /** An IPv4 block written as dotted quad, '/', prefix length. */
  lemma ParseIPv4Block(p: seq<byte>, n: nat)
    requires |p| == 4 && n <= 32
    ensures ParseEntry(FormatIPv4(p) + "/" + Decimal(n)) == Some(Block(Net(Mask(p, n), n)))
  {
    var a := FormatIPv4(p);
    var s := a + "/" + Decimal(n);
    FormatIPv4Chars(p);
    assert TrimSpace(s) == s by {
      assert s[0] == a[0];
      assert s[|s| - 1] == Decimal(n)[|Decimal(n)| - 1];
    }
    assert s[|a|] == '/';
    ParseIPv4CIDR(p, n);
  }

  /** `ParseCIDR` on an IPv4 block: the masked address and the prefix length. */
  lemma ParseIPv4CIDR(p: seq<byte>, n: nat)
    requires |p| == 4 && n <= 32
    ensures ParseCIDR(FormatIPv4(p) + "/" + Decimal(n)) == Some(Net(Mask(p, n), n))
  {
    var a := FormatIPv4(p);
    FormatIPv4Chars(p);
    assert '/' !in a;
    CutAt(a, '/', Decimal(n));
    LoopbackIPv4(p);
    assert (V4InV6Prefix + p)[..12] == V4InV6Prefix && (V4InV6Prefix + p)[12..] == p;
  }

  /** An IPv4 block contains an IPv4 address exactly when their first `n` bits agree. */
  lemma IPv4BlockContains(p: seq<byte>, n: nat, b: seq<byte>)
    requires |p| == 4 && |b| == 4
    ensures Contains(Net(Mask(p, n), n), V4InV6Prefix + b) <==> Mask(b, n) == Mask(p, n)
  {
    assert (V4InV6Prefix + b)[..12] == V4InV6Prefix && (V4InV6Prefix + b)[12..] == b;
    MaskIdempotent(p, n);
  }

  /** A list of one IPv4 block includes an IPv4 address exactly when the prefixes agree. */
  lemma IPv4BlockIncludes(p: seq<byte>, n: nat, b: seq<byte>)
    requires |p| == 4 && n <= 32 && |b| == 4
    ensures New(FormatIPv4(p) + "/" + Decimal(n)).Some?
    ensures IncludeStr(New(FormatIPv4(p) + "/" + Decimal(n)).value, FormatIPv4(b))
        <==> Mask(b, n) == Mask(p, n)
  {
    var spec := FormatIPv4(p) + "/" + Decimal(n);
    FormatIPv4Chars(p);
    assert ',' !in spec by {
      DecimalChars(n);
    }
    SplitJoin([spec], ',');
    assert Split(spec, ',') == [spec];
    ParseIPv4Block(p, n);
    LoopbackIPv4(b);
    IPv4BlockContains(p, n, b);
  }

  lemma DecimalChars(n: nat)
    ensures forall c :: c in Decimal(n) ==> IsDigit(c)
  {
    forall c | c in Decimal(n) ensures IsDigit(c) {
      var j :| 0 <= j < |Decimal(n)| && Decimal(n)[j] == c;
    }
  }

  // ------------------------------------------------------------ examples

  lemma ExampleNumerals()
    ensures Decimal(10) == "10" && Decimal(0) == "0" && Decimal(8) == "8"
    ensures Decimal(192) == "192" && Decimal(168) == "168" && Decimal(1) == "1" && Decimal(5) == "5"
  {
    assert Decimal(1) == "1" && DigitChar(0) == '0' && DigitChar(9) == '9' && DigitChar(2) == '2';
    assert Decimal(10) == Decimal(1) + [DigitChar(0)];
    assert Decimal(19) == Decimal(1) + [DigitChar(9)];
    assert Decimal(192) == Decimal(19) + [DigitChar(2)];
    assert Decimal(16) == Decimal(1) + [DigitChar(6)];
    assert Decimal(168) == Decimal(16) + [DigitChar(8)];
  }

  lemma ExampleAddresses()
    ensures FormatIPv4([10, 0, 0, 0]) == "10.0.0.0"
    ensures FormatIPv4([192, 168, 1, 5]) == "192.168.1.5"
  {
    ExampleNumerals();
    var p := ["10", "0", "0", "0"];
    assert Join(p[3..], '.') == "0";
    assert Join(p[2..], '.') == "0" + "." + "0";
    assert Join(p[1..], '.') == "0" + "." + "0.0";
    assert Join(p, '.') == "10" + "." + "0.0.0";
    var q := ["192", "168", "1", "5"];
    assert Join(q[3..], '.') == "5";
    assert Join(q[2..], '.') == "1" + "." + "5";
    assert Join(q[1..], '.') == "168" + "." + "1.5";
    assert Join(q, '.') == "192" + "." + "168.1.5";
  }

  /** The example: the list "10.0.0.0/8" does not include 192.168.1.5. */
  lemma PrivateBlockExcludes()
    ensures New("10.0.0.0" + "/" + "8").Some?
    ensures !IncludeStr(New("10.0.0.0" + "/" + "8").value, "192.168.1.5")
  {
    ExampleAddresses();
    ExampleNumerals();
    IPv4BlockIncludes([10, 0, 0, 0], 8, [192, 168, 1, 5]);
    assert Mask([192, 168, 1, 5], 8)[0] == 192;
    assert Mask([10, 0, 0, 0], 8)[0] == 10;
  }

  /** The example: the list "127.0.0.1" includes 127.0.0.1. */
  lemma LocalhostListIncludes()
    ensures New("127.0.0.1").Some? && IncludeStr(New("127.0.0.1").value, "127.0.0.1")
  {
    LocalhostIsLoopback();
    LocalhostChars();
    ListOfItself("127.0.0.1");
  }

  lemma LocalhostChars()
    ensures "127.0.0.1" != "" && ',' !in "127.0.0.1" && '/' !in "127.0.0.1"
    ensures !IsSpace("127.0.0.1"[0]) && !IsSpace("127.0.0.1"[|"127.0.0.1"| - 1])
  {
  }

  /** A list of one address, without white space around it, includes that address. */
  lemma ListOfItself(a: string)
    requires a != "" && ',' !in a && '/' !in a && !IsSpace(a[0]) && !IsSpace(a[|a| - 1])
    requires ParseIP(a).Some?
    ensures New(a).Some? && IncludeStr(New(a).value, a)
  {
    Trimmed(a);
    SingleAddressIncludes(a, a);
  }

  /** Text with no white space at either end is its own trimming. */
  lemma Trimmed(s: string)
    requires |s| > 0 ==> !IsSpace(s[0]) && !IsSpace(s[|s| - 1])
    ensures TrimSpace(s) == s
  {
  }
}

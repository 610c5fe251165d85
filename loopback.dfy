/**
 * The loopback rewriter of the agent's open handler: a URI whose host is a
 * literal loopback address is pointed at the requester's address instead,
 * keeping its port; every other URI passes through unchanged.
 */
module Loopback {
  import opened Wrappers
  import opened Text
  import opened HostPort
  import opened IpAddr
  import opened Url

  /**
   * When the rewrite applies to `uri`: the parsed URL and the port of its
   * loopback host.  There is none when the URI does not parse, when its host
   * has no ":port" part (Go's `net.SplitHostPort` requires one), or when the
   * host is not a literal loopback IP.
   */
  function LoopbackTarget(uri: string): (r: Option<(Url, string)>)
    ensures r.Some? ==> r.value.0.authority.Some? && AllDigits(r.value.1)
  {
    match Parse(uri)
    case None => None
    case Some(parsed) =>
      match SplitHostPort(parsed.Host())
      case None => None
      case Some((host, port)) =>
        if !IsLoopbackText(host) then None
        else ParsedPortDigits(parsed.Host(), host, port); Some((parsed, port))
  }

  /** The new host as the source writes it: `fmt.Sprintf("%s:%s", remoteIP, port)`. */
  function SprintfHost(remoteIP: string, port: string): string {
    if |port| == 0 then remoteIP else remoteIP + ":" + port
  }

  /**
   * Go's `translateLoopbackIP`, as written.  A URI comes back changed only
   * when its host splits into an address and a port and that address is a
   * loopback IP.
   */
  function TranslateLoopbackIP(uri: string, remoteIP: string): (r: string)
    ensures r != uri ==> Parse(uri).Some? && SplitHostPort(Parse(uri).value.Host()).Some?
    ensures r != uri ==> IsLoopbackText(SplitHostPort(Parse(uri).value.Host()).value.0)
  {
    match LoopbackTarget(uri)
    case None => uri
    case Some((parsed, port)) => ToString(parsed.WithHost(SprintfHost(remoteIP, port)))
  }

  /** A host text that brackets an IPv6 address, as a URL authority needs. */
  function BracketHost(ip: string): string {
    if ':' in ip then "[" + ip + "]" else ip
  }

  /** The new host built with `net.JoinHostPort`, which brackets an IPv6 requester. */
  function JoinedHost(remoteIP: string, port: string): string {
    if |port| == 0 then BracketHost(remoteIP) else JoinHostPort(remoteIP, port)
  }

  /** `translateLoopbackIP` with the new host joined so that it splits back. */
  function TranslateLoopbackIPJoined(uri: string, remoteIP: string): string {
    match LoopbackTarget(uri)
    case None => uri
    case Some((parsed, port)) => ToString(parsed.WithHost(JoinedHost(remoteIP, port)))
  }

  // ------------------------------------------------------------ pass-through

  /** A URI that does not parse is returned as it is. */
  lemma UnparsableUnchanged(uri: string, remoteIP: string)
    requires Parse(uri).None?
    ensures TranslateLoopbackIP(uri, remoteIP) == uri
    ensures TranslateLoopbackIPJoined(uri, remoteIP) == uri
  {
  }

  /**
   * A URI whose host has no ":port" part is returned as it is, even when the
   * host is a loopback address.
   */
  lemma NoPortUnchanged(uri: string, remoteIP: string)
    requires Parse(uri).Some? && ':' !in Parse(uri).value.Host()
    ensures TranslateLoopbackIP(uri, remoteIP) == uri
    ensures TranslateLoopbackIPJoined(uri, remoteIP) == uri
  {
  }

  /** A URI whose host is not a literal loopback IP is returned as it is. */
  lemma NotLoopbackUnchanged(uri: string, remoteIP: string, host: string, port: string)
    requires Parse(uri).Some? && SplitHostPort(Parse(uri).value.Host()) == Some((host, port))
    requires !IsLoopbackText(host)
    ensures TranslateLoopbackIP(uri, remoteIP) == uri
    ensures TranslateLoopbackIPJoined(uri, remoteIP) == uri
  {
  }

  /** Whatever the URI, a changed result means its host was a loopback IP with a port part. */
  /** A requester without a colon (an IPv4 address) gets the same result from both hosts. */
  lemma JoinedAgreesForIPv4(uri: string, remoteIP: string)
    requires ':' !in remoteIP
    ensures TranslateLoopbackIPJoined(uri, remoteIP) == TranslateLoopbackIP(uri, remoteIP)
  {
  }

  // ------------------------------------------------------------ rewriting

  /** The port that `SplitHostPort` finds in a host `Parse` accepted is all digits. */
  lemma ParsedPortDigits(h: string, host: string, port: string)
    requires ParseHost(h).Some? && SplitHostPort(h) == Some((host, port))
    ensures AllDigits(port)
  {
    if h == host + ":" + port && ':' !in host {
      PlainPortFound(h, host, port);
    } else {
      assert h == "[" + host + "]:" + port;
      BracketedPortFound(h, host, port);
    }
  }

  /** In "host:port" with no colon in the host, the port follows the last colon and there is no bracket. */
  lemma PlainPortFound(h: string, host: string, port: string)
    requires h == host + ":" + port && ':' !in host && ':' !in port && '[' !in host
    ensures FindLast(h, ':') == Some(|host|) && h[|host|..] == ":" + port
    ensures h[0] != '['
  {
    assert h[|host|] == ':' && h[|host| + 1..] == port;
    FindLastIs(h, ':', |host|);
    assert h[0] != '[' by {
      if |host| > 0 { assert h[0] == host[0]; }
    }
  }

  /** In "[host]:port", the closing bracket is the last one and the port follows it. */
  lemma BracketedPortFound(h: string, host: string, port: string)
    requires h == "[" + host + "]:" + port && ']' !in port
    ensures FindLast(h, ']') == Some(|host| + 1) && h[|host| + 2..] == ":" + port
  {
    assert h[|host| + 1] == ']' && h[|host| + 2..] == ":" + port;
    assert ']' !in h[|host| + 2..];
    FindLastIs(h, ']', |host| + 1);
  }

  /** A requester address that can stand in a host: ASCII host characters, no brackets. */
  predicate IsAddressText(ip: string) {
    ip != "" && '[' !in ip && ']' !in ip && forall c :: c in ip ==> IsAsciiHostChar(c)
  }

  lemma DigitsAreHostChars(port: string)
    requires AllDigits(port)
    ensures forall c :: c in port ==> IsAsciiHostChar(c)
    ensures ':' !in port && '[' !in port && ']' !in port
  {
    forall c | c in port ensures IsDigit(c) {
      var k :| 0 <= k < |port| && port[k] == c;
    }
  }

  lemma PlainHostWithPort(ip: string, port: string)
    requires IsAddressText(ip) && AllDigits(port)
    ensures IsPlainHost(ip + ":" + port)
  {
    var h := ip + ":" + port;
    PlainChars(ip, port);
    assert h[0] == ip[0] && ip[0] in ip;
    assert h[|ip|] == ':' && h[|ip| + 1..] == port;
    FindLastIs(h, ':', |ip|);
    assert h[|ip|..] == ":" + port;
  }

  /** The characters of "ip:port" are host characters. */
  lemma PlainChars(ip: string, port: string)
    requires IsAddressText(ip) && AllDigits(port)
    ensures forall c :: c in ip + ":" + port ==> IsAsciiHostChar(c)
  {
    var h := ip + ":" + port;
    DigitsAreHostChars(port);
    forall c | c in h ensures c in ip || c == ':' || c in port {
      var k :| 0 <= k < |h| && h[k] == c;
      if k < |ip| { assert h[k] == ip[k]; }
      else if k > |ip| { assert h[k] == port[k - |ip| - 1]; }
    }
  }

  lemma PlainHostAlone(ip: string)
    requires IsAddressText(ip) && ':' !in ip
    ensures IsPlainHost(ip)
  {
    assert ip[0] in ip;
  }

  /** "[ip]" followed by `tail`, where the tail is empty or ":" and digits. */
  lemma BracketedHost(ip: string, tail: string)
    requires IsAddressText(ip)
    requires tail == "" || (tail[0] == ':' && AllDigits(tail[1..]))
    ensures IsPlainHost("[" + ip + "]" + tail)
  {
    var h := "[" + ip + "]" + tail;
    BracketedChars(ip, tail);
    assert h[|ip| + 1] == ']' && h[|ip| + 2..] == tail;
    FindLastIs(h, ']', |ip| + 1);
    assert ValidOptionalPort(h[|ip| + 2..]);
  }

  /** The characters of "[ip]" and such a tail are host characters, with no ']' after the bracket. */
  lemma BracketedChars(ip: string, tail: string)
    requires IsAddressText(ip)
    requires tail == "" || (tail[0] == ':' && AllDigits(tail[1..]))
    ensures forall c :: c in "[" + ip + "]" + tail ==> IsAsciiHostChar(c)
    ensures ']' !in tail
  {
    var h := "[" + ip + "]" + tail;
    assert forall c :: c in tail ==> IsAsciiHostChar(c) && c != ']' by {
      if tail != "" {
        DigitsAreHostChars(tail[1..]);
        assert tail == [':'] + tail[1..];
      }
    }
    forall c | c in h ensures c == '[' || c in ip || c == ']' || c in tail {
      var k :| 0 <= k < |h| && h[k] == c;
      if 0 < k <= |ip| { assert h[k] == ip[k - 1]; }
      else if k > |ip| + 1 { assert h[k] == tail[k - |ip| - 2]; }
    }
  }

  /** The rewritten URL of a well-formed URL is well-formed when its new host is. */
  lemma WithHostWellFormed(u: Url, h: string)
    requires WellFormed(u) && IsPlainHost(h)
    ensures WellFormed(u.WithHost(h))
  {
  }

  /** A well-formed URL with a loopback host and a port part is a rewrite target. */
  lemma TargetOfWellFormed(u: Url, host: string, port: string)
    requires WellFormed(u) && SplitHostPort(u.Host()) == Some((host, port)) && IsLoopbackText(host)
    ensures LoopbackTarget(ToString(u)) == Some((u, port))
    ensures AllDigits(port)
  {
    ParseToString(u);
    ParsedPortDigits(u.Host(), host, port);
  }

  /**
   * For a well-formed URL with a loopback host and an IPv4-style requester,
   * the rewritten URI parses back to the same URL with only its host changed,
   * and that host splits into the requester's address and the original port.
   */
  lemma RewriteChangesOnlyHost(u: Url, remoteIP: string, host: string, port: string)
    requires WellFormed(u) && SplitHostPort(u.Host()) == Some((host, port)) && IsLoopbackText(host)
    requires IsAddressText(remoteIP) && (port != "" || ':' !in remoteIP)
    ensures Parse(TranslateLoopbackIP(ToString(u), remoteIP))
      == Some(u.WithHost(if port == "" then remoteIP else remoteIP + ":" + port))
    ensures ':' !in remoteIP && port != "" ==> SplitHostPort(remoteIP + ":" + port) == Some((remoteIP, port))
  {
    TargetOfWellFormed(u, host, port);
    var h := SprintfHost(remoteIP, port);
    assert IsPlainHost(h) by {
      if port == "" {
        PlainHostAlone(remoteIP);
      } else {
        PlainHostWithPort(remoteIP, port);
      }
    }
    if port != "" && ':' !in remoteIP {
      DigitsAreHostChars(port);
      SplitPlainHostPort(remoteIP, port);
    }
    WithHostWellFormed(u, h);
    ParseToString(u.WithHost(h));
  }

  /** A well-formed URL whose host is not a loopback IP with a port part is returned as printed. */
  lemma WellFormedNotRewritten(u: Url, remoteIP: string)
    requires WellFormed(u)
    requires SplitHostPort(u.Host()).None? || !IsLoopbackText(SplitHostPort(u.Host()).value.0)
    ensures TranslateLoopbackIP(ToString(u), remoteIP) == ToString(u)
  {
    ParseToString(u);
  }

  lemma BracketRegroup(ip: string, port: string)
    ensures "[" + ip + "]:" + port == "[" + ip + "]" + (":" + port)
  {
  }

  lemma JoinedHostPlain(ip: string, port: string)
    requires IsAddressText(ip) && AllDigits(port) && port != ""
    ensures IsPlainHost(JoinHostPort(ip, port))
  {
    if ':' in ip {
      var tail := ":" + port;
      assert tail[0] == ':' && tail[1..] == port;
      BracketedHost(ip, tail);
      BracketRegroup(ip, port);
    } else {
      PlainHostWithPort(ip, port);
    }
  }

  /**
   * With the joined host, any requester address, IPv6 included, is recovered
   * from the rewritten URI together with the original port.
   */
  lemma JoinedRewriteKeepsRequester(u: Url, remoteIP: string, host: string, port: string)
    requires WellFormed(u) && SplitHostPort(u.Host()) == Some((host, port)) && IsLoopbackText(host)
    requires IsAddressText(remoteIP)
    requires port != ""
    ensures Parse(TranslateLoopbackIPJoined(ToString(u), remoteIP))
      == Some(u.WithHost(JoinHostPort(remoteIP, port)))
    ensures SplitHostPort(JoinHostPort(remoteIP, port)) == Some((remoteIP, port))
  {
    TargetOfWellFormed(u, host, port);
    var h := JoinHostPort(remoteIP, port);
    JoinedHostPlain(remoteIP, port);
    DigitsAreHostChars(port);
    SplitJoinHostPort(remoteIP, port);
    WithHostWellFormed(u, h);
    ParseToString(u.WithHost(h));
  }

  // ------------------------------------------------------------ http URIs

  /**
   * An "http" URI naming a loopback address with a port is rewritten to the
   * same URI naming the requester's address with that port.
   */
  lemma HttpLoopbackRewrite(loopback: string, port: string, path: string, remoteIP: string)
    requires IsAddressText(loopback) && ':' !in loopback && IsLoopbackText(loopback)
    requires IsAddressText(remoteIP)
    requires AllDigits(port) && port != ""
    requires path == "" || path[0] == '/'
    requires PrintsAsIs(path) && ValidEscapes(path)
    ensures TranslateLoopbackIP("http://" + (loopback + ":" + port) + path, remoteIP)
         == "http://" + (remoteIP + ":" + port) + path
  {
    var local := loopback + ":" + port;
    var remote := remoteIP + ":" + port;
    PrintsAsIsPlain(path);
    PlainHostWithPort(loopback, port);
    PlainHostWithPort(remoteIP, port);
    HttpUrlText(local, path);
    HttpUrlText(remote, path);
    DigitsAreHostChars(port);
    SplitPlainHostPort(loopback, port);
    TargetOfWellFormed(HttpUrl(local, path), loopback, port);
    assert HttpUrl(local, path).WithHost(remote) == HttpUrl(remote, path);
  }

  /** The same with the joined host: an IPv6 requester is bracketed. */
  lemma HttpLoopbackRewriteJoined(loopback: string, port: string, path: string, remoteIP: string)
    requires IsAddressText(loopback) && ':' !in loopback && IsLoopbackText(loopback)
    requires IsAddressText(remoteIP) && ':' in remoteIP
    requires AllDigits(port) && port != ""
    requires path == "" || path[0] == '/'
    requires PrintsAsIs(path) && ValidEscapes(path)
    ensures TranslateLoopbackIPJoined("http://" + (loopback + ":" + port) + path, remoteIP)
         == "http://" + ("[" + remoteIP + "]:" + port) + path
  {
    var local := loopback + ":" + port;
    var remote := JoinHostPort(remoteIP, port);
    PrintsAsIsPlain(path);
    PlainHostWithPort(loopback, port);
    JoinedHostPlain(remoteIP, port);
    HttpUrlText(local, path);
    HttpUrlText(remote, path);
    DigitsAreHostChars(port);
    SplitPlainHostPort(loopback, port);
    TargetOfWellFormed(HttpUrl(local, path), loopback, port);
    assert HttpUrl(local, path).WithHost(remote) == HttpUrl(remote, path);
  }

  /**
   * Go's `net.SplitHostPort` refuses the host the source builds for an IPv6
   * requester: an address with a colon, a colon, then the port.
   */
  lemma IPv6HostUnsplittable(ip: string, port: string)
    requires ':' in ip && '[' !in ip && ':' !in port
    ensures SplitHostPort(ip + ":" + port).None?
  {
    var hp := ip + ":" + port;
    assert hp[0] != '[' by { assert hp[0] == ip[0]; }
    assert hp[|ip|] == ':' && hp[|ip| + 1..] == port;
    FindLastIs(hp, ':', |ip|);
    assert hp[..|ip|] == ip;
  }

  lemma ExampleTexts()
    ensures IsAddressText("127.0.0.1") && ':' !in "127.0.0.1"
    ensures IsAddressText("203.0.113.9") && ':' !in "203.0.113.9"
    ensures IsAddressText("2001:db8::1") && ':' in "2001:db8::1"
    ensures AllDigits("8080") && "8080" != ""
    ensures NoControl("/x") && ValidEscapes("/x") && "/x"[0] == '/' && '?' !in "/x" && '#' !in "/x"
    ensures PrintsAsIs("/x")
  {
    assert "2001:db8::1"[4] == ':';
    assert "/x"[1..] == "x" && "x"[1..] == "";
  }

  /** The example: a request from 203.0.113.9 rewrites 127.0.0.1:8080 to 203.0.113.9:8080. */
  lemma IPv4RequesterExample()
    ensures TranslateLoopbackIP("http://" + ("127.0.0.1" + ":" + "8080") + "/x", "203.0.113.9")
         == "http://" + ("203.0.113.9" + ":" + "8080") + "/x"
  {
    LocalhostIsLoopback();
    ExampleTexts();
    HttpLoopbackRewrite("127.0.0.1", "8080", "/x", "203.0.113.9");
  }

  /**
   * As written, a request from 2001:db8::1 yields a URI whose host, with its
   * colons unbracketed, no longer splits into an address and a port.
   */
  lemma IPv6RequesterAsWritten()
    ensures TranslateLoopbackIP("http://" + ("127.0.0.1" + ":" + "8080") + "/x", "2001:db8::1")
         == "http://" + ("2001:db8::1" + ":" + "8080") + "/x"
    ensures SplitHostPort("2001:db8::1" + ":" + "8080").None?
  {
    LocalhostIsLoopback();
    ExampleTexts();
    HttpLoopbackRewrite("127.0.0.1", "8080", "/x", "2001:db8::1");
    IPv6HostUnsplittable("2001:db8::1", "8080");
  }

  /** With the joined host, the same request yields a bracketed host that splits back. */
  lemma IPv6RequesterJoined()
    ensures TranslateLoopbackIPJoined("http://" + ("127.0.0.1" + ":" + "8080") + "/x", "2001:db8::1")
         == "http://" + ("[" + "2001:db8::1" + "]:" + "8080") + "/x"
    ensures SplitHostPort("[" + "2001:db8::1" + "]:" + "8080") == Some(("2001:db8::1", "8080"))
  {
    LocalhostIsLoopback();
    ExampleTexts();
    HttpLoopbackRewriteJoined("127.0.0.1", "8080", "/x", "2001:db8::1");
    SplitBracketed("2001:db8::1", "8080");
  }
}

/**
 * What the agent promises: the verb checks of each handler, the effects of
 * copy, paste, open and upload, the order of the checks in front of them,
 * and two exchanges with a configured agent.
 */
module AgentProperties {
  import opened Wrappers
  import opened Bytes
  import opened Text
  import opened IpAddr
  import opened HostPort
  import opened Url
  import opened IpRange
  import opened Base64Url
  import opened LineEnding
  import opened Loopback
  import opened Http
  import opened Middleware
  import opened Agent

  /** The routes behind the access gate. */
  predicate IsCheckedRoute(route: Route) {
    route.CopyRoute? || route.PasteRoute? || route.OpenRoute? || route.UploadRoute?
  }

  // ------------------------------------------------------------ verbs

  /** The copy handler refuses any verb but POST with 405 and changes nothing. */
  lemma CopyRefusesOtherVerbs(lineEnding: string, s: AgentState, r: Request, os: Os)
    requires r.verb != MethodPost
    ensures Copy(lineEnding, s, r, os) == (s, Error("Copy only support post", 405))
  {
  }

  /** The paste handler refuses any verb but GET with 405 and changes nothing. */
  lemma PasteRefusesOtherVerbs(s: AgentState, r: Request, os: Os)
    requires r.verb != MethodGet
    ensures Paste(s, r, os) == (s, Error("Paste only support get", 405))
  {
  }

  /** The open handler refuses any verb but GET with 405 and opens nothing. */
  lemma OpenRefusesOtherVerbs(s: AgentState, r: Request)
    requires r.verb != MethodGet
    ensures Open(s, r) == (s, Error("Open only support get", 405))
  {
  }

  /** The upload handler refuses any verb but POST with 405, storing and opening nothing. */
  lemma UploadRefusesOtherVerbs(port: int, s: AgentState, r: Request, os: Os)
    requires r.verb != MethodPost
    ensures Upload(port, s, r, os) == (s, Error("Upload only support post", 405))
  {
  }

  /**
   * Through the gate: a GET to "/copy" or "/upload", or a POST to "/paste"
   * or "/open", from an allowed peer is answered 405 by the handler, with no effect.
   */
  lemma HandlerVerbAfterGate(svc: Service, s: AgentState, r: Request, os: Os)
    requires IsCheckedRoute(RouteOf(r.path)) && Gate(svc.allow, r) == Pass
    requires (r.verb != MethodPost && (RouteOf(r.path).CopyRoute? || RouteOf(r.path).UploadRoute?)) ||
             (r.verb != MethodGet && (RouteOf(r.path).PasteRoute? || RouteOf(r.path).OpenRoute?))
    ensures Dispatch(svc, s, r, os).0 == s && Dispatch(svc, s, r, os).1.status == 405
  {
  }

  /**
   * A verb other than GET and POST on a checked route is refused with 405
   * whatever the peer's address and allow-list, and changes nothing.
   */
  lemma UnsupportedVerbRefused(svc: Service, s: AgentState, r: Request, os: Os, otherAddr: string)
    requires IsCheckedRoute(RouteOf(r.path))
    requires r.verb != MethodGet && r.verb != MethodPost
    ensures Dispatch(svc, s, r, os) == (s, NotSupportedMethod)
    ensures Dispatch(svc, s, r.(remoteAddr := otherAddr), os) == (s, NotSupportedMethod)
  {
    MethodCheckedFirst(svc.allow, r, svc.allow, otherAddr);
  }

  // ------------------------------------------------------------ the gate

  /** A rejected request reaches no handler: the state is unchanged and the answer is the gate's. */
  lemma RejectedRequestNoEffect(svc: Service, s: AgentState, r: Request, os: Os)
    requires IsCheckedRoute(RouteOf(r.path)) && Gate(svc.allow, r).Reject?
    ensures Dispatch(svc, s, r, os) == (s, Gate(svc.allow, r).response)
    ensures Dispatch(svc, s, r, os).1.status in {405, 500, 503}
  {
  }

  /**
   * A checked route reaches its handler exactly when the verb is GET or POST,
   * the peer address splits and its host is on the allow-list.
   */
  lemma HandlerReachedWhenAllowed(svc: Service, s: AgentState, r: Request, os: Os)
    requires IsCheckedRoute(RouteOf(r.path))
    requires r.verb == MethodGet || r.verb == MethodPost
    requires SplitHostPort(r.remoteAddr).Some? && IncludeStr(svc.allow, SplitHostPort(r.remoteAddr).value.0)
    ensures Dispatch(svc, s, r, os) == Handler(svc, RouteOf(r.path), s, r, os)
  {
    PassWhenAllowed(svc.allow, r);
  }

  /** The "/files/" tree is not behind the gate: verb and peer do not matter, and nothing changes. */
  lemma FilesUnchecked(svc: Service, s: AgentState, r: Request, os: Os, verb: string, addr: string)
    requires RouteOf(r.path).FilesRoute?
    ensures Dispatch(svc, s, r.(verb := verb, remoteAddr := addr), os) == Dispatch(svc, s, r, os)
    ensures Dispatch(svc, s, r, os) == (s, ServeFile(s, RouteOf(r.path).name))
  {
  }

  /** A path below "/files/" names the file after the prefix. */
  lemma FilesPath(name: string)
    ensures RouteOf("/files/" + name) == FilesRoute(name)
  {
    var p := "/files/" + name;
    assert p[..7] == "/files/" && p[7..] == name;
  }

  // ------------------------------------------------------------ copy and paste

  /**
   * A readable POST body, converted to the configured line endings, becomes
   * the clipboard; a failed clipboard write is not reported to the client.
   */
  lemma CopyStoresConverted(lineEnding: string, s: AgentState, r: Request, os: Os, bytes: seq<byte>)
    requires r.verb == MethodPost && r.body == Body(bytes)
    ensures var (s1, resp) := Copy(lineEnding, s, r, os);
      resp == Ok &&
      s1.files == s.files && s1.opens == s.opens &&
      s1.clipboard == (if os.clipboardWriteOk then ConvertLineEnding(StringOf(bytes), lineEnding) else s.clipboard)
  {
  }

  /** A body that cannot be read is a 500 with the error's message, and the clipboard is untouched. */
  lemma CopyUnreadableBody(lineEnding: string, s: AgentState, r: Request, os: Os)
    requires r.verb == MethodPost && r.body.Unreadable?
    ensures Copy(lineEnding, s, r, os) == (s, Error(r.body.reason, 500))
  {
  }

  /** Paste never changes anything; it answers with the clipboard, or with an empty 200 when that cannot be read. */
  lemma PasteReadsOnly(s: AgentState, r: Request, os: Os)
    ensures Paste(s, r, os).0 == s
    ensures r.verb == MethodGet ==>
      Paste(s, r, os).1 == (if os.clipboardReadOk then Response(200, s.clipboard) else Ok)
  {
  }

  /**
   * Copy then paste: the pasted text has the lines of the copied body, in
   * the configured line endings, so converting it again changes nothing.
   */
  lemma CopyThenPaste(lineEnding: string, s: AgentState, bytes: seq<byte>, copyReq: Request, pasteReq: Request, os: Os)
    requires copyReq.verb == MethodPost && copyReq.body == Body(bytes) && os.clipboardWriteOk
    requires pasteReq.verb == MethodGet && os.clipboardReadOk
    ensures var (s1, _) := Copy(lineEnding, s, copyReq, os);
      var (s2, resp) := Paste(s1, pasteReq, os);
      s2 == s1 && resp.status == 200 &&
      resp.body == ConvertLineEnding(StringOf(bytes), lineEnding) &&
      Lines(resp.body) == Lines(StringOf(bytes)) &&
      ConvertLineEnding(resp.body, lineEnding) == resp.body
  {
    var text := StringOf(bytes);
    ConvertKeepsLines(text, lineEnding);
    ConvertIdempotent(text, lineEnding);
  }

  // ------------------------------------------------------------ open

  /**
   * A GET to the open handler opens exactly one URI, or none when the
   * base64 decoding fails, and changes nothing else.
   */
  lemma OpenOnceOrNever(s: AgentState, r: Request)
    requires r.verb == MethodGet
    ensures var (s1, resp) := Open(s, r);
      resp == Ok && s1.clipboard == s.clipboard && s1.files == s.files &&
      (s1.opens == s.opens <==>
         QueryGet(r.query, "base64") == "true" && DecodeString(QueryGet(r.query, "uri")).None?) &&
      (s1.opens != s.opens ==> s1.opens == s.opens + [OpenTarget(r).value])
  {
  }

  /** Without `base64` and `transLoopback`, the `uri` parameter is opened as given. */
  lemma OpenRawVerbatim(s: AgentState, r: Request)
    requires r.verb == MethodGet
    requires QueryGet(r.query, "base64") != "true" && QueryGet(r.query, "transLoopback") != "true"
    ensures Open(s, r).0.opens == s.opens + [QueryGet(r.query, "uri")]
  {
  }

  /** A URI sent base64url-encoded with `base64=true` is opened as it was before encoding. */
  lemma OpenBase64RoundTrip(s: AgentState, r: Request, uri: string)
    requires r.verb == MethodGet && IsByteString(uri)
    requires QueryGet(r.query, "uri") == Encode(BytesOf(uri)) && QueryGet(r.query, "base64") == "true"
    requires QueryGet(r.query, "transLoopback") != "true"
    ensures Open(s, r).0.opens == s.opens + [uri]
  {
    DecodeEncode(BytesOf(uri));
  }

  /**
   * With `transLoopback=true` the URI is rewritten for the peer's host: an
   * "http" URI on a loopback address keeps its port and path and names the
   * peer instead, written "peer:port".  For an IPv6 peer that host no longer
   * splits into address and port.
   */
  lemma OpenTranslatesForPeer(s: AgentState, r: Request, loopback: string, port: string, path: string, peer: string, peerPort: string)
    requires r.verb == MethodGet
    requires QueryGet(r.query, "base64") != "true" && QueryGet(r.query, "transLoopback") == "true"
    requires QueryGet(r.query, "uri") == "http://" + (loopback + ":" + port) + path
    requires IsAddressText(loopback) && ':' !in loopback && IsLoopbackText(loopback)
    requires AllDigits(port) && port != ""
    requires path == "" || path[0] == '/'
    requires PrintsAsIs(path) && ValidEscapes(path)
    requires IsAddressText(peer) && ':' !in peerPort && '[' !in peerPort && ']' !in peerPort
    requires r.remoteAddr == JoinHostPort(peer, peerPort)
    ensures Open(s, r).0.opens == s.opens + ["http://" + (peer + ":" + port) + path]
    ensures ':' in peer ==> SplitHostPort(peer + ":" + port).None?
  {
    SplitJoinHostPort(peer, peerPort);
    assert RemoteIP(r.remoteAddr) == peer;
    HttpLoopbackRewrite(loopback, port, path, peer);
    if ':' in peer {
      DigitsAreHostChars(port);
      IPv6HostUnsplittable(peer, port);
    }
  }

  /**
   * The corrected target differs from the one the handler opens only for a
   * peer whose address holds a colon, that is, an IPv6 peer.
   */
  lemma JoinedTargetAgreesForIPv4Peers(r: Request)
    requires ':' !in RemoteIP(r.remoteAddr)
    ensures OpenTargetJoined(r) == OpenTarget(r)
  {
    if DecodedUri(r).Some? && QueryGet(r.query, "transLoopback") == "true" {
      JoinedAgreesForIPv4(DecodedUri(r).value, RemoteIP(r.remoteAddr));
    }
  }

  // ------------------------------------------------------------ upload

  /** Without an "uploadFile" part: a 500 and no effect, even with `open=true`. */
  lemma UploadMissingFile(port: int, s: AgentState, r: Request, os: Os)
    requires r.verb == MethodPost && "uploadFile" !in r.form
    ensures Upload(port, s, r, os) == (s, Error("Error Retrieving the File", 500))
  {
  }

  /** A part whose bytes cannot be read: a 500 and no effect. */
  lemma UploadUnreadableFile(port: int, s: AgentState, r: Request, os: Os)
    requires r.verb == MethodPost && "uploadFile" in r.form && r.form["uploadFile"].content.None?
    ensures Upload(port, s, r, os) == (s, Error("Error Read the File", 500))
  {
  }

  /**
   * An upload stores the part under the store directory by its file name
   * when the write succeeds, and with `open=true` opens the agent's URI for
   * it even when the write failed; it always answers 200.
   */
  lemma UploadStores(port: int, s: AgentState, r: Request, os: Os, filename: string, bytes: seq<byte>)
    requires r.verb == MethodPost && "uploadFile" in r.form
    requires r.form["uploadFile"] == FormFile(filename, Some(bytes))
    ensures var (s1, resp) := Upload(port, s, r, os);
      resp == Ok && s1.clipboard == s.clipboard &&
      s1.files == (if os.fileWriteOk then s.files[StoreDir + "/" + filename := bytes] else s.files) &&
      s1.opens == s.opens + (if QueryGet(r.query, "open") == "true"
                             then ["http://127.0.0.1:" + SignedDecimal(port) + "/files/" + filename]
                             else [])
  {
  }

  /** A stored upload is served back under "/files/" to any peer, with any verb. */
  lemma UploadThenFetch(svc: Service, s: AgentState, r: Request, os: Os, filename: string, bytes: seq<byte>, fetch: Request, os2: Os)
    requires r.verb == MethodPost && "uploadFile" in r.form && os.fileWriteOk
    requires r.form["uploadFile"] == FormFile(filename, Some(bytes))
    requires fetch.path == "/files/" + filename
    ensures var (s1, _) := Upload(svc.port, s, r, os);
      Dispatch(svc, s1, fetch, os2) == (s1, Response(200, StringOf(bytes)))
  {
    FilesPath(filename);
  }

  /**
   * The URI an upload opens names this agent on the loopback address, and
   * its path routes to the uploaded file.
   */
  lemma FileUriNamesStoredFile(port: nat, filename: string)
    requires '?' !in filename && '#' !in filename && '%' !in filename && NoControl(filename)
    ensures Parse(FileUri(port, filename)).Some?
    ensures var u := Parse(FileUri(port, filename)).value;
      SplitHostPort(u.Host()) == Some(("127.0.0.1", Decimal(port))) &&
      IsLoopbackText("127.0.0.1") &&
      RouteOf(u.path) == FilesRoute(filename) && PathUnescape(u.path) == u.path
  {
    var digits := Decimal(port);
    var host := "127.0.0.1" + ":" + digits;
    var path := "/files/" + filename;
    FileUriIsHttpUrl(port, filename);
    ParseToString(HttpUrl(host, path));
    assert Parse(FileUri(port, filename)) == Some(HttpUrl(host, path));
    ExampleTexts();
    DigitsAreHostChars(digits);
    SplitPlainHostPort("127.0.0.1", digits);
    LocalhostIsLoopback();
    FilesPath(filename);
    FilePathPrintable(filename);
  }

  /**
   * As written, a '#' in an uploaded file's name starts the URI's fragment:
   * the opened URI routes to the file named by the text before the '#'.
   */
  lemma FileUriCutAtHash(port: nat, name: string, tail: string)
    requires '?' !in name && '#' !in name && '%' !in name && NoControl(name)
    requires tail != "" && ValidEscapes(tail)
    ensures Parse(FileUri(port, name + "#" + tail)).Some?
    ensures var u := Parse(FileUri(port, name + "#" + tail)).value;
      RouteOf(PathUnescape(u.path)) == FilesRoute(name) && u.fragment == tail &&
      FilesRoute(name) != FilesRoute(name + "#" + tail)
  {
    var u := HttpUrl("127.0.0.1" + ":" + Decimal(port), "/files/" + name);
    FileUriIsHttpUrl(port, name);
    FileUriWithHash(port, name, tail);
    ParseAddFragment(u, tail);
    FilePathPrintable(name);
    FilesPath(name);
    assert |name + "#" + tail| != |name|;
  }

  /** A name holding '#' gives the URI of the name before it, followed by the fragment. */
  lemma FileUriWithHash(port: nat, name: string, tail: string)
    requires tail != ""
    ensures FileUri(port, name + "#" + tail) == FileUri(port, name) + FragmentPart(tail)
  {
    var prefix := "http://127.0.0.1:" + SignedDecimal(port) + "/files/";
    assert FileUri(port, name + "#" + tail) == prefix + (name + "#" + tail);
    assert FileUri(port, name) == prefix + name;
    assert FragmentPart(tail) == "#" + tail;
  }

  /**
   * With the name path-escaped, the URI an upload opens names this agent on
   * the loopback address, and its unescaped path routes to the uploaded file,
   * whatever bytes the name holds.
   */
  lemma EscapedFileUriNamesStoredFile(port: nat, filename: string)
    requires IsByteString(filename)
    ensures Parse(FileUriEscaped(port, filename)).Some?
    ensures var u := Parse(FileUriEscaped(port, filename)).value;
      SplitHostPort(u.Host()) == Some(("127.0.0.1", Decimal(port))) &&
      RouteOf(PathUnescape(u.path)) == FilesRoute(filename)
  {
    var digits := Decimal(port);
    var host := "127.0.0.1" + ":" + digits;
    var path := "/files/" + PathEscape(filename);
    EscapedFileUriIsHttpUrl(port, filename);
    ParseToString(HttpUrl(host, path));
    ExampleTexts();
    DigitsAreHostChars(digits);
    SplitPlainHostPort("127.0.0.1", digits);
    EscapedPathRoutes(filename);
  }

  /** The escaped upload URI is the printed "http" URL with the agent's host and the escaped path. */
  lemma EscapedFileUriIsHttpUrl(port: nat, filename: string)
    ensures WellFormed(HttpUrl("127.0.0.1" + ":" + Decimal(port), "/files/" + PathEscape(filename)))
    ensures FileUriEscaped(port, filename)
         == ToString(HttpUrl("127.0.0.1" + ":" + Decimal(port), "/files/" + PathEscape(filename)))
  {
    var escaped := PathEscape(filename);
    var digits := Decimal(port);
    var host := "127.0.0.1" + ":" + digits;
    var path := "/files/" + escaped;
    EscapedPathPrintable(escaped);
    ExampleTexts();
    DigitsAreHostChars(digits);
    PlainHostWithPort("127.0.0.1", digits);
    HttpUrlText(host, path);
    FileUriText(digits, port, escaped);
  }

  /** The unescaped path of an escaped name routes to the name. */
  lemma EscapedPathRoutes(filename: string)
    requires IsByteString(filename)
    ensures RouteOf(PathUnescape("/files/" + PathEscape(filename))) == FilesRoute(filename)
  {
    PathUnescapePlain("/files/", PathEscape(filename));
    PathUnescapeEscape(filename);
    FilesPath(filename);
  }

  /** The path of an escaped name prints and parses as itself. */
  lemma EscapedPathPrintable(escaped: string)
    requires ValidEscapes(escaped)
    requires forall c :: c in escaped ==> IsSegmentChar(c) || c == '%'
    ensures var path := "/files/" + escaped;
      path[0] == '/' && '?' !in path && '#' !in path && NoControl(path) && ValidEscapes(path)
  {
    var path := "/files/" + escaped;
    assert forall c :: c in path ==> c in "/files/" || c in escaped;
    ValidEscapesAfterPlain("/files/", escaped);
  }

  /** The text of the upload URI is the printed "http" URL with the agent's host and the file's path. */
  lemma FileUriIsHttpUrl(port: nat, filename: string)
    requires '?' !in filename && '#' !in filename && '%' !in filename && NoControl(filename)
    ensures WellFormed(HttpUrl("127.0.0.1" + ":" + Decimal(port), "/files/" + filename))
    ensures FileUri(port, filename) == ToString(HttpUrl("127.0.0.1" + ":" + Decimal(port), "/files/" + filename))
  {
    var digits := Decimal(port);
    var host := "127.0.0.1" + ":" + digits;
    var path := "/files/" + filename;
    ExampleTexts();
    DigitsAreHostChars(digits);
    PlainHostWithPort("127.0.0.1", digits);
    FilePathPrintable(filename);
    HttpUrlText(host, path);
    FileUriText(digits, port, filename);
  }

  /** The upload URI, with its host and path grouped. */
  lemma FileUriText(digits: string, port: nat, filename: string)
    requires digits == Decimal(port)
    ensures FileUri(port, filename) == "http://" + ("127.0.0.1" + ":" + digits) + ("/files/" + filename)
  {
    calc {
      FileUri(port, filename);
      "http://127.0.0.1:" + digits + "/files/" + filename;
      { assert "http://127.0.0.1:" == "http://" + "127.0.0.1" + ":"; }
      "http://" + "127.0.0.1" + ":" + digits + "/files/" + filename;
    }
  }

  /** The path of a file name without '?', '#', '%' and control characters prints and parses as itself. */
  lemma FilePathPrintable(filename: string)
    requires '?' !in filename && '#' !in filename && '%' !in filename && NoControl(filename)
    ensures var path := "/files/" + filename;
      path[0] == '/' && '?' !in path && '#' !in path && NoControl(path) && ValidEscapes(path)
    ensures PathUnescape("/files/" + filename) == "/files/" + filename
  {
    var path := "/files/" + filename;
    assert forall c :: c in path ==> c in "/files/" || c in filename;
    NoPercentEscapes(path);
    PlainUnescaped(path);
  }

  // ------------------------------------------------------------ start-up

  /** The agent starts exactly when its allow-list parses; an empty list never does. */
  lemma StartNeedsAllowList(c: Config)
    ensures Start(c).Some? <==> New(c.allow).Some?
    ensures Start(c).Some? ==> Start(c).value == Service(New(c.allow).value, c.lineEnding, c.port)
    ensures c.allow == "" ==> Start(c).None?
  {
    EmptySpecRefused();
  }

  // ------------------------------------------------------------ exchanges

  /**
   * An agent allowing 127.0.0.1 in "lf" mode: a POST of "hello\r\nworld" to
   * "/copy" from 127.0.0.1 puts "hello\nworld" on the clipboard.
   */
  lemma LocalCopyExchange(s: AgentState, bytes: seq<byte>, os: Os)
    requires StringOf(bytes) == "hello" + "\r\n" + "world" && os.clipboardWriteOk
    ensures Start(Config(2489, "127.0.0.1", "lf")).Some?
    ensures Dispatch(Start(Config(2489, "127.0.0.1", "lf")).value, s,
                     Request(MethodPost, "/copy", "127.0.0.1" + ":" + "51234", map[], Body(bytes), map[]), os)
         == (s.(clipboard := "hello" + "\n" + "world"), Ok)
  {
    LocalhostListIncludes();
    PeerSplits("127.0.0.1", "51234");
    CrlfToLf();
    AllowedCopy(Start(Config(2489, "127.0.0.1", "lf")).value, s,
                Request(MethodPost, "/copy", "127.0.0.1" + ":" + "51234", map[], Body(bytes), map[]), os,
                bytes, "127.0.0.1", "51234");
  }

  /** A copy from an allowed peer puts the converted body on the clipboard. */
  lemma AllowedCopy(svc: Service, s: AgentState, r: Request, os: Os, bytes: seq<byte>, ip: string, port: string)
    requires r.verb == MethodPost && r.path == "/copy" && r.body == Body(bytes) && os.clipboardWriteOk
    requires SplitHostPort(r.remoteAddr) == Some((ip, port)) && IncludeStr(svc.allow, ip)
    ensures Dispatch(svc, s, r, os) == (s.(clipboard := ConvertLineEnding(StringOf(bytes), svc.lineEnding)), Ok)
  {
    assert RouteOf(r.path) == CopyRoute;
    HandlerReachedWhenAllowed(svc, s, r, os);
  }

  /** An agent allowing only 10.0.0.0/8 refuses a paste from 192.168.1.5 with 503, changing nothing. */
  lemma ForeignPasteExchange(s: AgentState, os: Os)
    ensures Start(Config(2489, "10.0.0.0" + "/" + "8", "")).Some?
    ensures Dispatch(Start(Config(2489, "10.0.0.0" + "/" + "8", "")).value, s,
                     Request(MethodGet, "/paste", "192.168.1.5" + ":" + "51234", map[], Body([]), map[]), os)
         == (s, NotAllowedIp)
  {
    PrivateBlockExcludes();
    var svc := Start(Config(2489, "10.0.0.0" + "/" + "8", "")).value;
    var r := Request(MethodGet, "/paste", "192.168.1.5" + ":" + "51234", map[], Body([]), map[]);
    PeerSplits("192.168.1.5", "51234");
    PeerNotAllowed(svc.allow, r, "192.168.1.5", "51234");
    assert RouteOf(r.path) == PasteRoute;
  }

  /** The peer addresses of the two exchanges split into address and port. */
  lemma PeerSplits(ip: string, port: string)
    requires ip == "127.0.0.1" || ip == "192.168.1.5"
    requires port == "51234"
    ensures SplitHostPort(ip + ":" + port) == Some((ip, port))
  {
    assert ':' !in ip && '[' !in ip && ']' !in ip;
    assert ':' !in port && '[' !in port && ']' !in port;
    SplitPlainHostPort(ip, port);
  }
}

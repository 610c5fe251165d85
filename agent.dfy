/**
 * The agent: its start-up, its routes and the four handlers behind the
 * access gate, acting on the host clipboard, the store directory and the
 * operating system's "open" action.
 */
module Agent {
  import opened Wrappers
  import opened Bytes
  import opened Text
  import opened HostPort
  import opened Url
  import opened IpRange
  import opened Base64Url
  import opened LineEnding
  import opened Loopback
  import opened Http
  import opened Middleware

  /** The settings the agent is started with: port, allow-list text and line-ending mode. */
  datatype Config = Config(port: int, allow: string, lineEnding: string)

  /** The running service: the parsed allow-list and the settings the handlers read. */
  datatype Service = Service(allow: Range, lineEnding: string, port: int)

  /** Whether the operating system grants the clipboard read, the clipboard write and the file write. */
  datatype Os = Os(clipboardReadOk: bool, clipboardWriteOk: bool, fileWriteOk: bool)

  /** What the handlers change: the clipboard, the files of the store, and every URI opened so far. */
  datatype AgentState = AgentState(clipboard: string, files: map<string, seq<byte>>, opens: seq<string>)

  /** The directory uploads are written to and files are served from. */
  const StoreDir := "./files"

  /** Where an uploaded file is written: the store directory, '/', the client's file name. */
  function StorePath(filename: string): string {
    StoreDir + "/" + filename
  }

  /** The URI an upload with `open=true` opens: this agent's own file endpoint on 127.0.0.1. */
  function FileUri(port: int, filename: string): string {
    "http://127.0.0.1:" + SignedDecimal(port) + "/files/" + filename
  }

  /**
   * The file URI with the name path-escaped (Go's `url.PathEscape`), so that
   * the name comes back whole whatever bytes it holds.
   */
  function FileUriEscaped(port: int, filename: string): string {
    FileUri(port, PathEscape(filename))
  }

  // ------------------------------------------------------------ start-up

  /** Go's `Serve` up to the listener: the allow-list must parse, or the agent does not start. */
  function Start(c: Config): (svc: Option<Service>)
  {
    match New(c.allow)
    case None => None
    case Some(r) => Some(Service(r, c.lineEnding, c.port))
  }

  // ------------------------------------------------------------ handlers

  /** `handleCopy`: POST only; the body, converted to the configured line endings, becomes the clipboard. */
  function Copy(lineEnding: string, s: AgentState, r: Request, os: Os): (AgentState, Response) {
    if r.verb != MethodPost then (s, Error("Copy only support post", 405))
    else
      match r.body
      case Unreadable(reason) => (s, Error(reason, 500))
      case Body(bytes) =>
        var text := ConvertLineEnding(StringOf(bytes), lineEnding);
        (if os.clipboardWriteOk then s.(clipboard := text) else s, Ok)
  }

  /** `handlePaste`: GET only; answers with the clipboard, or with nothing when it cannot be read. */
  function Paste(s: AgentState, r: Request, os: Os): (AgentState, Response) {
    if r.verb != MethodGet then (s, Error("Paste only support get", 405))
    else if !os.clipboardReadOk then (s, Ok)
    else (s, Response(200, s.clipboard))
  }

  /** The host part of the peer address, or "" when it does not split. */
  function RemoteIP(remoteAddr: string): string {
    match SplitHostPort(remoteAddr)
    case Some((host, _)) => host
    case None => ""
  }

  /** The `uri` parameter, base64url-decoded when `base64=true`; none when the decoding fails. */
  function DecodedUri(r: Request): Option<string> {
    var uri := QueryGet(r.query, "uri");
    if QueryGet(r.query, "base64") == "true" then
      match DecodeString(uri)
      case None => None
      case Some(b) => Some(StringOf(b))
    else Some(uri)
  }

  /**
   * The URI `handleOpen` opens: the decoded URI, rewritten for the peer when
   * `transLoopback=true`.  There is none when the decoding fails.
   */
  function OpenTarget(r: Request): Option<string> {
    match DecodedUri(r)
    case None => None
    case Some(u) =>
      if QueryGet(r.query, "transLoopback") == "true"
      then Some(TranslateLoopbackIP(u, RemoteIP(r.remoteAddr)))
      else Some(u)
  }

  /** The target with the rewrite corrected to bracket an IPv6 peer (`TranslateLoopbackIPJoined`). */
  function OpenTargetJoined(r: Request): Option<string> {
    match DecodedUri(r)
    case None => None
    case Some(u) =>
      if QueryGet(r.query, "transLoopback") == "true"
      then Some(TranslateLoopbackIPJoined(u, RemoteIP(r.remoteAddr)))
      else Some(u)
  }

  /** `handleOpen`: GET only; opens the target URI when there is one. */
  function Open(s: AgentState, r: Request): (AgentState, Response) {
    if r.verb != MethodGet then (s, Error("Open only support get", 405))
    else
      match OpenTarget(r)
      case None => (s, Ok)
      case Some(target) => (s.(opens := s.opens + [target]), Ok)
  }

  /**
   * `handleUpload`: POST only; writes the "uploadFile" part under the store
   * directory and, with `open=true`, opens the agent's URI for it.
   */
  function Upload(port: int, s: AgentState, r: Request, os: Os): (AgentState, Response) {
    if r.verb != MethodPost then (s, Error("Upload only support post", 405))
    else if "uploadFile" !in r.form then (s, Error("Error Retrieving the File", 500))
    else
      var part := r.form["uploadFile"];
      match part.content
      case None => (s, Error("Error Read the File", 500))
      case Some(bytes) =>
        var written := if os.fileWriteOk then s.(files := s.files[StorePath(part.filename) := bytes]) else s;
        var launched :=
          if QueryGet(r.query, "open") == "true"
          then written.(opens := written.opens + [FileUri(port, part.filename)])
          else written;
        (launched, Ok)
  }

  const NotFound := Error("404 page not found", 404)

  /** The static file endpoint: the stored file of that name, or 404. */
  function ServeFile(s: AgentState, name: string): Response {
    var p := StorePath(name);
    if p in s.files then Response(200, StringOf(s.files[p])) else NotFound
  }

  // ------------------------------------------------------------ routing

  datatype Route = FilesRoute(name: string) | CopyRoute | PasteRoute | OpenRoute | UploadRoute | Unregistered

  /** The registered patterns: the "/files/" tree and four exact paths. */
  function RouteOf(path: string): Route {
    if |path| >= 7 && path[..7] == "/files/" then FilesRoute(path[7..])
    else if path == "/copy" then CopyRoute
    else if path == "/paste" then PasteRoute
    else if path == "/open" then OpenRoute
    else if path == "/upload" then UploadRoute
    else Unregistered
  }

  /** The handler behind a checked route. */
  function Handler(svc: Service, route: Route, s: AgentState, r: Request, os: Os): (AgentState, Response)
    requires route.CopyRoute? || route.PasteRoute? || route.OpenRoute? || route.UploadRoute?
  {
    match route
    case CopyRoute => Copy(svc.lineEnding, s, r, os)
    case PasteRoute => Paste(s, r, os)
    case OpenRoute => Open(s, r)
    case UploadRoute => Upload(svc.port, s, r, os)
  }

  /** One exchange with the running agent: route, gate for the checked routes, handler. */
  function Dispatch(svc: Service, s: AgentState, r: Request, os: Os): (AgentState, Response) {
    var route := RouteOf(r.path);
    match route
    case FilesRoute(name) => (s, ServeFile(s, name))
    case Unregistered => (s, NotFound)
    case _ =>
      match Gate(svc.allow, r)
      case Reject(response) => (s, response)
      case Pass => Handler(svc, route, s, r, os)
  }

  // ------------------------------------------------------------ the agent

  /**
   * A running agent.  Its fields are what the Go package keeps in globals and
   * on the host: the clipboard, the store directory and the open actions.
   */
  class Agent {
    var clipboard: string
    var files: map<string, seq<byte>>
    var opens: seq<string>
    const service: Service

    function State(): AgentState
      reads this
    {
      AgentState(clipboard, files, opens)
    }

    /** An agent for a started service, on a host with that clipboard and those stored files. */
    constructor (svc: Service, clipboard0: string, files0: map<string, seq<byte>>)
      ensures service == svc
      ensures State() == AgentState(clipboard0, files0, [])
    {
      service := svc;
      clipboard := clipboard0;
      files := files0;
      opens := [];
    }

    method HandleCopy(r: Request, os: Os) returns (resp: Response)
      modifies this
      ensures (State(), resp) == Copy(service.lineEnding, old(State()), r, os)
    {
      if r.verb != MethodPost {
        resp := Error("Copy only support post", 405);
        return;
      }
      if r.body.Unreadable? {
        resp := Error(r.body.reason, 500);
        return;
      }
      var text := ConvertLineEnding(StringOf(r.body.bytes), service.lineEnding);
      if os.clipboardWriteOk {
        clipboard := text;
      }
      resp := Ok;
    }

    method HandlePaste(r: Request, os: Os) returns (resp: Response)
      ensures (State(), resp) == Paste(State(), r, os)
    {
      if r.verb != MethodGet {
        resp := Error("Paste only support get", 405);
        return;
      }
      if !os.clipboardReadOk {
        resp := Ok;
        return;
      }
      resp := Response(200, clipboard);
    }

    method HandleOpen(r: Request) returns (resp: Response)
      modifies this
      ensures (State(), resp) == Open(old(State()), r)
    {
      if r.verb != MethodGet {
        resp := Error("Open only support get", 405);
        return;
      }
      var uri := QueryGet(r.query, "uri");
      if QueryGet(r.query, "base64") == "true" {
        var decoded := DecodeString(uri);
        if decoded.None? {
          resp := Ok;
          return;
        }
        uri := StringOf(decoded.value);
      }
      if QueryGet(r.query, "transLoopback") == "true" {
        uri := TranslateLoopbackIP(uri, RemoteIP(r.remoteAddr));
      }
      opens := opens + [uri];
      resp := Ok;
    }

    method HandleUpload(r: Request, os: Os) returns (resp: Response)
      modifies this
      ensures (State(), resp) == Upload(service.port, old(State()), r, os)
    {
      if r.verb != MethodPost {
        resp := Error("Upload only support post", 405);
        return;
      }
      if "uploadFile" !in r.form {
        resp := Error("Error Retrieving the File", 500);
        return;
      }
      var part := r.form["uploadFile"];
      if part.content.None? {
        resp := Error("Error Read the File", 500);
        return;
      }
      if os.fileWriteOk {
        files := files[StorePath(part.filename) := part.content.value];
      }
      if QueryGet(r.query, "open") == "true" {
        opens := opens + [FileUri(service.port, part.filename)];
      }
      resp := Ok;
    }

    /** One exchange: the route, then for a checked route the gate, then its handler. */
    method Handle(r: Request, os: Os) returns (resp: Response)
      modifies this
      ensures (State(), resp) == Dispatch(service, old(State()), r, os)
    {
      var route := RouteOf(r.path);
      if route.FilesRoute? {
        resp := ServeFile(State(), route.name);
      } else if route.Unregistered? {
        resp := NotFound;
      } else {
        var verdict := Gate(service.allow, r);
        if verdict.Reject? {
          resp := verdict.response;
        } else if route.CopyRoute? {
          resp := HandleCopy(r, os);
        } else if route.PasteRoute? {
          resp := HandlePaste(r, os);
        } else if route.OpenRoute? {
          resp := HandleOpen(r);
        } else {
          resp := HandleUpload(r, os);
        }
      }
    }
  }

  /**
   * Go's `Serve` up to the listener: with an allow-list that does not parse
   * there is no agent; otherwise an agent on the host's clipboard and files.
   */
  method Serve(c: Config, clipboard0: string, files0: map<string, seq<byte>>) returns (agent: Option<Agent>)
    ensures agent.None? <==> New(c.allow).None?
    ensures agent.Some? ==> fresh(agent.value) && Start(c) == Some(agent.value.service)
    ensures agent.Some? ==> agent.value.State() == AgentState(clipboard0, files0, [])
  {
    var allow := New(c.allow);
    if allow.None? {
      return None;
    }
    var a := new Agent(Service(allow.value, c.lineEnding, c.port), clipboard0, files0);
    agent := Some(a);
  }
}

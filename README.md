# lemonade agent, modelled in Dafny

lemonade runs a small HTTP agent on a workstation. Remote machines (an SSH
session, a container) use it to reach the workstation's clipboard and its
"open" action. The agent has four endpoints:

- `/copy` (POST) sets the clipboard to the request body, after converting its
  line endings.
- `/paste` (GET) answers with the clipboard.
- `/open` (GET) opens a URI. The URI may arrive base64url-encoded. A URI that
  names a loopback address can be rewritten to name the requester instead.
- `/upload` (POST) stores a multipart file under `./files` and can open the
  agent's own URL for it.

These four endpoints sit behind an access gate. The gate accepts only GET and
POST, and only from peers whose address is on the allow-list the agent was
started with. The `/files/` tree serves the stored files and is not behind the
gate.

The model has these parts:

- `Agent` models `server/server.go`. The handlers are functions over an
  `AgentState`: the clipboard, the stored files and the URIs opened so far.
  The class `Agent.Agent` holds that state in fields. Its methods
  (`HandleCopy`, `HandlePaste`, `HandleOpen`, `HandleUpload`, `Handle`)
  update the fields in place and are proved equal to those functions.
  `Serve` is the start-up. The agent rewrites loopback URIs as the source
  does; `OpenTargetJoined` is the target with the corrected rewrite (see
  Findings).
- `Middleware` models the gate.
- `Loopback` models `translateLoopbackIP`.
- `AgentProperties` holds what the agent promises, stated over the functions.
- The Go library behaviour the core depends on is modelled concretely, so that
  the properties can be proved:
  - `Url` is `url.Parse` and `URL.String`.
  - `HostPort` is `net.SplitHostPort` and `net.JoinHostPort`.
  - `IpAddr` is `net.ParseIP`, `To4` and `IsLoopback`.
  - `Base64Url` is `base64.URLEncoding`.
  - `IpRange` is the allow-list of `go-iprange`.
  - `LineEnding` is `lemon.ConvertLineEnding`.
  - `Text` and `Bytes` are string helpers.

The operating system is an input. A value of type `Os` says whether the
clipboard read, the clipboard write and the file write succeed. `open.Run` is
recorded as an entry appended to `opens`.

## Model

| member | source | states |
|---|---|---|
| Agent.Serve | server/server.go:182-192 | there is no agent exactly when the allow-list does not parse; otherwise a fresh agent whose service is `Start(c)`, with the host's clipboard and files and nothing opened |
| Agent.Agent.constructor | server/server.go:183-185 | the agent keeps the port, the line-ending mode and the allow-list it is given, and starts with the given clipboard and files and nothing opened |
| Agent.Agent.HandleCopy | server/server.go:27-51 | the new clipboard and the response are exactly what `Copy` gives for the old state |
| Agent.Agent.HandlePaste | server/server.go:53-72 | the response is what `Paste` gives; the agent is not modified |
| Agent.Agent.HandleOpen | server/server.go:99-125 | the URIs opened and the response are exactly what `Open` gives for the old state |
| Agent.Agent.HandleUpload | server/server.go:127-158 | the stored files, the URIs opened and the response are exactly what `Upload` gives for the old state |
| Agent.Agent.Handle | server/server.go:196-200 | one exchange: the new state and the response are what `Dispatch` gives (route, then gate, then handler) |
| AgentProperties.CopyRefusesOtherVerbs | server/server.go:30-33 | any verb but POST gets 405 "Copy only support post" and leaves the state unchanged |
| AgentProperties.PasteRefusesOtherVerbs | server/server.go:54-57 | any verb but GET gets 405 "Paste only support get" and leaves the state unchanged |
| AgentProperties.OpenRefusesOtherVerbs | server/server.go:100-103 | any verb but GET gets 405 "Open only support get"; nothing is opened |
| AgentProperties.UploadRefusesOtherVerbs | server/server.go:128-131 | any verb but POST gets 405 "Upload only support post"; nothing is stored or opened |
| AgentProperties.HandlerVerbAfterGate | server/server.go:178 | a request that passes the gate with the other verb of its handler is answered 405, with no effect |
| AgentProperties.UnsupportedVerbRefused | server/server.go:162-165 | on a checked route, a verb other than GET and POST gets 405 "Not support method." whatever the peer address; no effect |
| AgentProperties.RejectedRequestNoEffect | server/server.go:160-180 | a request the gate rejects reaches no handler: the state is unchanged and the status is 405, 500 or 503 |
| AgentProperties.HandlerReachedWhenAllowed | server/server.go:167-178 | with GET or POST from a peer whose address splits and is allowed, the exchange is exactly the route's handler |
| AgentProperties.FilesUnchecked | server/server.go:196 | under "/files/" the verb and the peer address make no difference, and the answer is the stored file; nothing changes |
| AgentProperties.FilesPath | server/server.go:196 | "/files/" followed by a name routes to the file of that name |
| AgentProperties.CopyStoresConverted | server/server.go:43-50 | a readable POST body, converted to the configured line endings, becomes the clipboard when the write succeeds; the answer is 200 even when the write fails; files and opens are untouched |
| AgentProperties.CopyUnreadableBody | server/server.go:35-41 | a body that cannot be read gets 500 with the read error's message, and the clipboard is unchanged |
| AgentProperties.PasteReadsOnly | server/server.go:59-69 | paste never changes the state; a GET answers 200 with the clipboard, or an empty 200 when the read fails |
| AgentProperties.CopyThenPaste | server/server.go:43-65 | after a copy, paste returns the copied body converted to the configured line endings: text that has the same lines as the copied body and is already in the configured line endings (converting it again changes nothing) |
| AgentProperties.OpenOnceOrNever | server/server.go:105-124 | a GET opens exactly one URI, the target; it opens none exactly when `base64=true` and the decoding fails; the clipboard and files are untouched; the answer is 200 |
| AgentProperties.OpenRawVerbatim | server/server.go:106-124 | without `base64=true` and `transLoopback=true`, the `uri` parameter is opened exactly as given |
| AgentProperties.OpenBase64RoundTrip | server/server.go:107-115 | a URI sent base64url-encoded with `base64=true` is opened exactly as it was before encoding |
| AgentProperties.OpenTranslatesForPeer | server/server.go:117-121 | with `transLoopback=true`, an "http" URI on an IPv4 loopback address and port is opened with host "peer:port" (the peer's address, unbracketed, with the same port) and the same path, for a path Go prints unchanged; for an IPv6 peer that host does not split back |
| AgentProperties.JoinedTargetAgreesForIPv4Peers | server/server.go:117-121 | the target with the corrected rewrite equals the target the handler opens for every peer whose address has no colon |
| AgentProperties.UploadMissingFile | server/server.go:133-139 | without an "uploadFile" part the answer is 500 "Error Retrieving the File"; nothing is stored or opened, even with `open=true` |
| AgentProperties.UploadUnreadableFile | server/server.go:142-147 | a part that cannot be read gets 500 "Error Read the File"; nothing is stored or opened |
| AgentProperties.UploadStores | server/server.go:149-157 | the part is stored at "./files/" + file name when the write succeeds; with `open=true`, `http://127.0.0.1:<port>/files/<name>` is opened even when the write failed; the answer is 200 |
| AgentProperties.UploadThenFetch | server/server.go:196 | after a stored upload, any request for "/files/" + file name, from any peer and with any verb, gets 200 with the uploaded bytes |
| AgentProperties.FileUriNamesStoredFile | server/server.go:154 | for a file name without '?', '#', '%' or control characters, the URI an upload opens parses as a URL on loopback host 127.0.0.1 with the agent's port, and its path, which unescapes to itself, routes to the uploaded file |
| AgentProperties.FileUriCutAtHash | server/server.go:154 | as written, a file name `name#tail` gives a URI whose fragment is `tail` and whose path routes to the file `name`, not to the uploaded one |
| AgentProperties.EscapedFileUriNamesStoredFile | server/server.go:154 | with the name path-escaped, the URI parses as a URL on 127.0.0.1 with the agent's port, and its unescaped path routes to the uploaded file, for every byte-string name |
| Url.PathEscape | server/server.go:154 | the escaped name holds only valid escapes and bytes a path segment keeps, so no '?', '#' or control character |
| Url.PathUnescapeEscape | server/server.go:154 | unescaping gives back every byte string that `PathEscape` escaped |
| AgentProperties.AllowedCopy | server/server.go:197 | a POST to "/copy" from an allowed peer puts the converted body on the clipboard and answers 200 |
| AgentProperties.StartNeedsAllowList | server/server.go:188-192 | the agent starts exactly when the allow-list parses, with the given line-ending mode and port; an empty allow-list never parses |
| AgentProperties.LocalCopyExchange | server/server.go:27-51 | an agent on allow-list "127.0.0.1" in mode "lf" turns a copy of "hello\r\nworld" from 127.0.0.1 into the clipboard "hello\nworld" |
| AgentProperties.ForeignPasteExchange | server/server.go:172-176 | an agent on allow-list "10.0.0.0/8" answers a paste from 192.168.1.5 with 503 "Not allow ip." and changes nothing |
| Middleware.Gate | server/server.go:160-180 | a rejection always carries status 405, 500 or 503 |
| Middleware.MethodCheckedFirst | server/server.go:162-165 | a verb other than GET and POST is refused with 405 before the peer address or the allow-list is looked at |
| Middleware.BadRemoteAddr | server/server.go:167-171 | with GET or POST, a peer address that does not split gets 500 "RemoteAddr error." |
| Middleware.PeerNotAllowed | server/server.go:172-176 | with GET or POST, a peer whose host is not on the allow-list gets 503 "Not allow ip." |
| Middleware.PassWhenAllowed | server/server.go:162-178 | the request passes exactly when the verb is GET or POST, the peer address splits and its host is allowed |
| Loopback.UnparsableUnchanged | server/server.go:75-78 | a URI that does not parse is returned unchanged |
| Loopback.NoPortUnchanged | server/server.go:80-83 | a URI whose host has no ':' is returned unchanged |
| Loopback.NotLoopbackUnchanged | server/server.go:85-88 | a URI whose host is not a loopback address is returned unchanged |
| Loopback.TranslateLoopbackIP | server/server.go:74-97 | a URI comes back changed only when it parses and its host splits into an address and a port with the address a loopback IP |
| Loopback.LoopbackTarget | server/server.go:75-88 | a URI the rewrite applies to has an authority, and the port of its host is all digits |
| Loopback.WellFormedNotRewritten | server/server.go:85-88 | a well-formed URL without a loopback host prints back unchanged |
| Loopback.RewriteChangesOnlyHost | server/server.go:90-96 | for any requester when the port is non-empty, and for a requester without a colon when it is empty, the rewritten URI parses to the same URL with host `remoteIP:port`, or `remoteIP` when the port is empty; for a requester without a colon, that host splits back into the requester and the port |
| Loopback.HttpLoopbackRewrite | server/server.go:74-97 | for a path Go prints unchanged, `http://<loopback>:<port><path>` becomes `http://<remoteIP>:<port><path>` |
| Loopback.IPv4RequesterExample | server/server.go:74-97 | `http://127.0.0.1:8080/x` requested from 203.0.113.9 becomes `http://203.0.113.9:8080/x` |
| Loopback.IPv6HostUnsplittable | server/server.go:93 | "ip:port" with a colon in the ip does not split back into host and port |
| Loopback.IPv6RequesterAsWritten | server/server.go:93 | from an IPv6 requester, the URI gets a host that `SplitHostPort` refuses |
| Loopback.JoinedAgreesForIPv4 | server/server.go:90-94 | with a requester address that has no colon, the corrected rewrite is the one written in the source |
| Loopback.JoinedRewriteKeepsRequester | server/server.go:90-96 | the corrected rewrite gives the URL with host `JoinHostPort(remoteIP, port)`, which splits back to the requester and the port |
| Loopback.HttpLoopbackRewriteJoined | server/server.go:90-96 | for an IPv6 requester, the corrected rewrite writes the address in brackets |
| Loopback.IPv6RequesterJoined | server/server.go:93 | `http://127.0.0.1:8080/x` requested from 2001:db8::1 becomes `http://[2001:db8::1]:8080/x`, whose host splits back |
| Url.Parse | server/server.go:75 | every host `url.Parse` returns is one `parseHost` accepts |
| Url.ParseToString | server/server.go:75-96 | `url.Parse` reads back exactly the well-formed URL that `URL.String` prints |
| Url.HttpUrlText | server/server.go:96 | an "http" URL with a plain host and a simple path prints as "http://" + host + path |
| HostPort.SplitHostPort | server/server.go:80 | a split result is either "host:port" with no colon in the host, or "[host]:port"; the port holds no colon or bracket; text with no colon does not split |
| HostPort.SplitJoinHostPort | server/server.go:119 | `SplitHostPort` undoes `JoinHostPort` |
| HostPort.SplitPlainHostPort | server/server.go:167 | "host:port" splits into that host and port |
| HostPort.SplitBracketed | server/server.go:167 | "[host]:port" splits into that host and port |
| IpAddr.ParseIP | server/server.go:85 | a parsed address is 16 bytes, and only text holding a '.' or a ':' parses |
| IpAddr.ParseFormatIPv4 | server/server.go:85 | the dotted quad printed from four bytes reads back as those four bytes |
| IpAddr.LoopbackIPv4 | server/server.go:86 | a dotted quad is a loopback address exactly when its first byte is 127 |
| IpAddr.IPv6LoopbackText | server/server.go:86 | "::1" parses to the IPv6 loopback address, and that address is loopback |
| IpAddr.LocalhostIsLoopback | server/server.go:154 | "127.0.0.1" is a loopback address |
| Base64Url.DecodeEncode | server/server.go:109 | decoding the URL-safe encoding of any bytes gives those bytes back |
| Base64Url.EncodeHasNoLineBreaks | server/server.go:109 | the encoding holds no CR or LF |
| Base64Url.LineBreakIgnored | server/server.go:109 | a CR or LF anywhere in the text does not change the decoding |
| Base64Url.PartialQuantumRejected | server/server.go:109-113 | after line breaks are stripped: text whose length is not a multiple of four fails to decode |
| Base64Url.ForeignCharRejected | server/server.go:109-113 | after line breaks are stripped: a character outside the URL-safe alphabet, other than '=', makes the decoding fail |
| Base64Url.PaddingEndsText | server/server.go:109-113 | after line breaks are stripped: a padded quantum followed by more text fails to decode |
| Bytes.BytesOfStringOf | server/server.go:114 | converting bytes to a string and back gives the same bytes |
| LineEnding.ConvertKeepsLines | server/server.go:43 | the conversion keeps the lines of the text |
| LineEnding.ConvertIdempotent | server/server.go:43 | converting twice is converting once |
| LineEnding.ConvertUsesTerminator | server/server.go:43 | with a known mode, the result is the lines joined by that mode's terminator |
| LineEnding.UnknownModeUnchanged | server/server.go:43 | with an unknown mode, the text is unchanged |
| LineEnding.ConvertTwoLines | server/server.go:43 | two lines separated by any one break come out separated by the mode's terminator |
| LineEnding.CrlfToLf | server/server.go:43 | in mode "lf", "hello\r\nworld" becomes "hello\nworld" |
| IpRange.New | server/server.go:188 | a parsed allow-list has at least one entry |
| IpRange.EmptySpecRefused | server/server.go:188-192 | the empty allow-list does not parse |
| IpRange.BlankEntryRefused | server/server.go:188-192 | a list with a blank entry does not parse |
| IpRange.UnparsableExcluded | server/server.go:172 | a peer host that is not an IP address is never allowed |
| IpRange.SingleAddressIncludes | server/server.go:172 | a list of one address allows exactly the texts that parse to that address |
| IpRange.IPv4BlockIncludes | server/server.go:172 | an IPv4 block a.b.c.d/n allows an IPv4 address exactly when their first n bits agree |
| IpRange.PrivateBlockExcludes | server/server.go:172 | the list "10.0.0.0/8" parses and does not allow 192.168.1.5 |
| IpRange.LocalhostListIncludes | server/server.go:172 | the list "127.0.0.1" parses and allows 127.0.0.1 |

## Left out

- The source of `go-iprange` is not part of this model. `IpRange` assumes:
  - a comma-separated list whose entries are trimmed of white space;
  - an entry holding '/' is a CIDR block read by `net.ParseCIDR`;
  - any other entry is a single address read by `net.ParseIP`;
  - a malformed or blank entry, including the empty list, makes `New` fail.
- The source of `lemon.ConvertLineEnding` is not part of this model. `LineEnding` assumes:
  - modes "lf"/"LF", "crlf"/"CRLF" and "cr"/"CR";
  - CRLF, a lone CR and a lone LF are each one break;
  - any other mode leaves the text unchanged.
- Logging (`logger.*`) is left out: it has no effect on the responses or the state.
- `http.ListenAndServe`, its error and concurrent requests are left out. Each exchange is one atomic step.
- `os.MkdirAll` is left out: the store directory is taken to exist.
- The outcomes of `clipboard.ReadAll`, `clipboard.WriteAll` and `os.WriteFile` are inputs (`Os`); `open.Run` is an entry appended to `opens`, and its own failure is not modelled.
- `io.WriteString` failing in `handlePaste` is left out: a response that cannot be written only reaches the log.
- `ParseMultipartForm`'s 10 MB memory limit and multipart decoding are left out; the request carries its parsed file parts.
- Query parsing is left out: a request carries its query parameters already unescaped, one value each (Go's `Get` returns the first).
- `http.FileServer` is reduced to serving the stored file of that name. Directory listings, index files, path cleaning, ranges and content types are left out. The bytes are served for any verb.
- `http.ServeMux` is reduced to the five patterns. Path cleaning, the redirect from "/files" to "/files/", and host-specific patterns are left out; every other path gets 404.
- `Url`: a host containing '%' does not parse, where Go decodes `%25` and escapes of non-ASCII bytes. No such host is a loopback IP address, so the rewrite returns the URI unchanged either way. The path, query and fragment are kept and printed as written; Go's `URL.String` may re-escape a path that `url.Parse` decoded. IPv6 zones are not accepted in hosts.
- `Url.ToString`: prints user information and the fragment as written, where Go's `Userinfo.String` escapes '@', '/', '?', ':' and other marks in them and `EscapedFragment` escapes a space and other characters; so `http://a@b@127.0.0.1:80/#x y` rewritten for 10.0.0.1 is `http://a@b@10.0.0.1:80/#x y` here and `http://a%40b@10.0.0.1:80/#x%20y` in Go. It also prints the path as written, where Go escapes a space, '"', '<', '>', '\\', '^', '`', '{', '|', '}' and bytes from 0x80 up.
- `Loopback.HttpLoopbackRewrite`, `Loopback.HttpLoopbackRewriteJoined`, `AgentProperties.OpenTranslatesForPeer`: stated only for paths made of characters Go prints unchanged (`Url.PrintsAsIs`), since for other paths Go's result differs from the model's in its escapes.
- `AgentProperties.OpenTranslatesForPeer`: stated only for an IPv4 loopback address in the URI (no colon, so no brackets). The source also rewrites a bracketed IPv6 loopback host such as `http://[::1]:8080/x`; that case is covered only by the general `Loopback.RewriteChangesOnlyHost`.
- `AgentProperties.FileUriNamesStoredFile`: stated only for file names without '?', '#', '%' or control characters, because the source puts the name into the URI unescaped and other names break the URI. See "## Findings": `AgentProperties.FileUriCutAtHash` shows a name with '#', and `AgentProperties.EscapedFileUriNamesStoredFile` proves the escaped URI for every name. A name with an invalid '%' escape makes the URI fail to parse, and one with a valid escape names a different file once the server decodes it. The agent's `Upload` opens the URI as written.
- `IpAddr`: IPv6 zones ("%eth0") are refused, as `net.ParseIP` refuses them.
- Go strings are byte strings: a `string` here stands for a byte string, and `StringOf`/`BytesOf` convert between the two.

## Findings

| source | as written | input that shows it | evidently intended | confidence | as-written member | corrected member |
|---|---|---|---|---|---|---|
| server/server.go:90-94 | the new host is built with `fmt.Sprintf("%s:%s", remoteIP, port)`, which does not bracket an IPv6 requester address | uri `http://127.0.0.1:8080/x` with `transLoopback=true` from peer `[2001:db8::1]:5000` gives `http://2001:db8::1:8080/x`, whose host `net.SplitHostPort` refuses | `http://[2001:db8::1]:8080/x`, as `net.JoinHostPort` writes it | not executed | Loopback.IPv6RequesterAsWritten | Loopback.IPv6RequesterJoined |
| server/server.go:154 | the uploaded file's name goes into the opened URI unescaped (`fmt.Sprintf("http://127.0.0.1:%d/files/%s", port, handler.Filename)`) | an upload named `a#b.txt` with `open=true` opens `http://127.0.0.1:<port>/files/a#b.txt`, whose path `/files/a` routes to the file `a` and whose fragment is `b.txt` | the name escaped with `url.PathEscape`, so the URI routes back to the uploaded file whatever the name holds | not executed | AgentProperties.FileUriCutAtHash | AgentProperties.EscapedFileUriNamesStoredFile |

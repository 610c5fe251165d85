/**
 * The access gate in front of the checked endpoints: the method, then the
 * peer address, then the allow-list, in that order.
 */
module Middleware {
  import opened Wrappers
  import opened HostPort
  import opened IpRange
  import opened Http

  /** The gate either answers the request itself or hands it on unchanged. */
  datatype Verdict = Reject(response: Response) | Pass

  const NotSupportedMethod := Error("Not support method.", 405)
  const RemoteAddrError := Error("RemoteAddr error.", 500)
  const NotAllowedIp := Error("Not allow ip.", 503)

  /** Go's `middleware`, as a decision on a request. */
  function Gate(allow: Range, r: Request): (v: Verdict)
    ensures v.Reject? ==> v.response.status in {405, 500, 503}
  {
    if r.verb != MethodGet && r.verb != MethodPost then Reject(NotSupportedMethod)
    else
      match SplitHostPort(r.remoteAddr)
      case None => Reject(RemoteAddrError)
      case Some((remoteIP, _)) =>
        if !IncludeStr(allow, remoteIP) then Reject(NotAllowedIp) else Pass
  }

  /** A method other than GET and POST is refused before the peer address is looked at. */
  lemma MethodCheckedFirst(allow: Range, r: Request, otherAllow: Range, otherAddr: string)
    requires r.verb != MethodGet && r.verb != MethodPost
    ensures Gate(allow, r) == Reject(NotSupportedMethod)
    ensures Gate(otherAllow, r.(remoteAddr := otherAddr)) == Gate(allow, r)
  {
  }

  /** A peer address that does not split into host and port is an internal error, whatever the list. */
  lemma BadRemoteAddr(allow: Range, r: Request)
    requires r.verb == MethodGet || r.verb == MethodPost
    requires SplitHostPort(r.remoteAddr).None?
    ensures Gate(allow, r) == Reject(RemoteAddrError)
  {
  }

  /** A peer whose address is not on the list is refused with 503. */
  lemma PeerNotAllowed(allow: Range, r: Request, ip: string, port: string)
    requires r.verb == MethodGet || r.verb == MethodPost
    requires SplitHostPort(r.remoteAddr) == Some((ip, port)) && !IncludeStr(allow, ip)
    ensures Gate(allow, r) == Reject(NotAllowedIp)
  {
  }

  /** The request is handed on exactly when its method, peer address and peer IP all pass. */
  lemma PassWhenAllowed(allow: Range, r: Request)
    ensures Gate(allow, r) == Pass <==>
      (r.verb == MethodGet || r.verb == MethodPost) &&
      SplitHostPort(r.remoteAddr).Some? && IncludeStr(allow, SplitHostPort(r.remoteAddr).value.0)
  {
  }
}

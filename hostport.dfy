/**
 * Go's `net.SplitHostPort` and `net.JoinHostPort`: a "host:port" text, with
 * an IPv6 host written in brackets, split into its host and port.
 */
module HostPort {
  import opened Wrappers
  import opened Text

  /**
   * The host and port of `hostport`.  The port is whatever follows the last
   * colon, possibly empty; there is no port, and so no result, when the text
   * has no colon at all.  A host holding a colon must be bracketed.
   */
  function SplitHostPort(hostport: string): (r: Option<(string, string)>)
    ensures r.None? <== ':' !in hostport
    ensures r.Some? ==>
      var (host, port) := r.value;
      ':' !in port && '[' !in port && ']' !in port && '[' !in host && ']' !in host &&
      ((hostport == host + ":" + port && ':' !in host) ||
       hostport == "[" + host + "]:" + port)
  {
    match FindLast(hostport, ':')
    case None => None
    case Some(i) =>
      if hostport[0] == '[' then
        match Find(hostport, ']')
        case None => None
        case Some(end) =>
          if end + 1 != i then None
          else if '[' in hostport[1..] || ']' in hostport[end + 1..] then None
          else
            var host := hostport[1..end];
            var port := hostport[i + 1..];
            assert '[' !in host by { assert forall k :: 0 <= k < |host| ==> host[k] == hostport[1..][k]; }
            assert hostport == "[" + host + "]:" + port;
            Some((host, port))
      else
        var host := hostport[..i];
        var port := hostport[i + 1..];
        if ':' in host || '[' in hostport || ']' in hostport then None
        else
          assert hostport == host + ":" + port;
          assert '[' !in port && ']' !in port by {
            assert forall k :: 0 <= k < |port| ==> port[k] == hostport[i + 1 + k];
          }
          assert '[' !in host && ']' !in host by {
            assert forall k :: 0 <= k < |host| ==> host[k] == hostport[k];
          }
          Some((host, port))
  }

  /** Go's `net.JoinHostPort`: brackets the host when it holds a colon. */
  function JoinHostPort(host: string, port: string): string {
    if ':' in host then "[" + host + "]:" + port else host + ":" + port
  }

  /** Splitting what `JoinHostPort` built gives back its host and port. */
  lemma SplitJoinHostPort(host: string, port: string)
    requires '[' !in host && ']' !in host
    requires ':' !in port && '[' !in port && ']' !in port
    ensures SplitHostPort(JoinHostPort(host, port)) == Some((host, port))
  {
    if ':' in host {
      SplitBracketed(host, port);
    } else {
      SplitPlainHostPort(host, port);
    }
  }

  /** A host and port without colons or brackets split back from "host:port". */
  lemma SplitPlainHostPort(host: string, port: string)
    requires ':' !in host && '[' !in host && ']' !in host
    requires ':' !in port && '[' !in port && ']' !in port
    ensures SplitHostPort(host + ":" + port) == Some((host, port))
  {
    var hp := host + ":" + port;
    assert hp[|host| + 1..] == port;
    assert hp[..|host|] == host;
    assert hp[|host|] == ':';
    FindLastIs(hp, ':', |host|);
    assert hp[0] != '[' by {
      if |host| > 0 { assert hp[0] == host[0]; }
    }
    assert '[' !in hp && ']' !in hp by {
      forall k | 0 <= k < |hp| ensures hp[k] != '[' && hp[k] != ']' {
        if k < |host| { assert hp[k] == host[k]; }
        else if k > |host| { assert hp[k] == port[k - |host| - 1]; }
      }
    }
  }

  /** A bracketed host and its port split back from "[host]:port". */
  lemma SplitBracketed(host: string, port: string)
    requires '[' !in host && ']' !in host
    requires ':' !in port && '[' !in port && ']' !in port
    ensures SplitHostPort("[" + host + "]:" + port) == Some((host, port))
  {
    var hp := "[" + host + "]:" + port;
    var n := |host|;
    assert hp[n + 3..] == port;
    assert hp[n + 2] == ':';
    FindLastIs(hp, ':', n + 2);
    assert hp[..n + 1] == "[" + host;
    assert hp[n + 1] == ']';
    FindIs(hp, ']', n + 1);
    assert hp[1..n + 1] == host;
    assert hp[1..] == host + "]:" + port;
    assert hp[n + 2..] == ":" + port;
  }
}

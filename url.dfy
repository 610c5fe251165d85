/**
 * URLs with the meaning of Go's `url.Parse` and `URL.String` (the syntax of
 * RFC 3986), reduced to what the loopback rewriter relies on: the scheme,
 * the authority (user information and host), and the path, query and
 * fragment, which are carried as written.
 */
module Url {
  import opened Wrappers
  import opened Bytes
  import opened Text

  datatype Authority = Authority(user: Option<string>, host: string)

  /**
   * A parsed URL.  `opaquePart` is the text after "scheme:" when it does not
   * start with a slash; `authority` is present when the URL has a "//" part.
   */
  datatype Url = Url(
    scheme: string,
    opaquePart: string,
    authority: Option<Authority>,
    path: string,
    query: Option<string>,
    fragment: string)
  {
    /** Go's `URL.Host`: "host[:port]" of the authority, empty without one. */
    function Host(): string {
      if authority.Some? then authority.value.host else ""
    }

    /** The same URL with another `Host` field. */
    function WithHost(h: string): (u: Url)
      requires authority.Some?
      ensures u.Host() == h && u.authority.Some? && u.authority.value.user == authority.value.user
      ensures u.scheme == scheme && u.opaquePart == opaquePart && u.path == path
      ensures u.query == query && u.fragment == fragment
    {
      this.(authority := Some(authority.value.(host := h)))
    }
  }

  // ------------------------------------------------------------ characters

  predicate IsLetter(c: char) { 'a' <= c <= 'z' || 'A' <= c <= 'Z' }

  predicate IsAlnum(c: char) { IsLetter(c) || IsDigit(c) }

  /** A character Go accepts in a scheme after its first letter. */
  predicate IsSchemeChar(c: char) { IsAlnum(c) || c == '+' || c == '-' || c == '.' }

  /** A character below space, or DEL: Go refuses these before the fragment. */
  predicate IsControl(c: char) { c < ' ' || c as int == 0x7f }

  predicate NoControl(s: string) { forall c :: c in s ==> !IsControl(c) }

  /**
   * An ASCII character Go accepts unescaped in a host: letters, digits,
   * the sub-delimiters, ':', '[', ']', '<', '>', '"' and the unreserved marks.
   */
  predicate IsAsciiHostChar(c: char) {
    IsAlnum(c) || c == '!' || c == '$' || c == '&' || c == '\'' || c == '(' || c == ')' || c == '*' || c == '+' || c == ',' || c == ';' || c == '=' ||
    c == ':' || c == '[' || c == ']' || c == '<' || c == '>' || c == '\"' ||
    c == '-' || c == '_' || c == '.' || c == '~'
  }

  /** Bytes from 0x80 up pass into a host as they are. */
  predicate IsHostChar(c: char) { IsAsciiHostChar(c) || c as int >= 0x80 }

  /** A character Go accepts in user information. */
  predicate IsUserinfoChar(c: char) {
    IsAlnum(c) || c == '-' || c == '.' || c == '_' || c == ':' || c == '~' || c == '%' || c == '@' ||
    c == '!' || c == '$' || c == '&' || c == '\'' || c == '(' || c == ')' || c == '*' || c == '+' || c == ',' || c == ';' || c == '='
  }

  /** Text Go accepts as the user information of an authority. */
  predicate IsUserinfo(s: string) {
    (forall c :: c in s ==> IsUserinfoChar(c)) && ValidEscapes(s)
  }

  /**
   * A character Go's `URL.EscapedPath` leaves as it is in a path: the
   * unreserved marks, the sub-delimiters, ':', '@', '[', ']', '/' and '%'.
   */
  predicate IsPathChar(c: char) {
    IsAlnum(c) || c == '-' || c == '.' || c == '_' || c == '~' ||
    c == '!' || c == '$' || c == '&' || c == '\'' || c == '(' || c == ')' || c == '*' || c == '+' || c == ',' || c == ';' || c == '=' ||
    c == ':' || c == '@' || c == '[' || c == ']' || c == '/' || c == '%'
  }

  /**
   * A path Go prints back unchanged: it holds no space, '"', '<', '>', '\\',
   * '^', '`', '{', '|', '}', '?', '#', control character or byte from 0x80 up.
   */
  predicate PrintsAsIs(path: string) { forall c :: c in path ==> IsPathChar(c) }

  /** Such a path holds no query, no fragment and no control character. */
  lemma PrintsAsIsPlain(path: string)
    requires PrintsAsIs(path)
    ensures '?' !in path && '#' !in path && NoControl(path)
  {
  }

  /** Every '%' starts a two-digit hexadecimal escape. */
  predicate ValidEscapes(s: string)
    decreases |s|
  {
    if |s| == 0 then true
    else if s[0] == '%' then |s| >= 3 && IsHexDigit(s[1]) && IsHexDigit(s[2]) && ValidEscapes(s[3..])
    else ValidEscapes(s[1..])
  }

  function ToLowerChar(c: char): char {
    if 'A' <= c <= 'Z' then (c as int - 'A' as int + 'a' as int) as char else c
  }

  function ToLower(s: string): (r: string)
    ensures |r| == |s|
    ensures forall i :: 0 <= i < |s| ==> r[i] == ToLowerChar(s[i])
  {
    if |s| == 0 then "" else [ToLowerChar(s[0])] + ToLower(s[1..])
  }

  predicate StartsWith(s: string, prefix: string) {
    |prefix| <= |s| && s[..|prefix|] == prefix
  }

  // ------------------------------------------------------------ parsing

  /**
   * Go's `getScheme`: a scheme is a letter followed by scheme characters and
   * ended by ':'.  A leading ':' is an error; any other character ends the
   * scan with no scheme.  The result is the scheme and the text after it.
   */
  function GetScheme(s: string): Option<(string, string)> {
    ScanScheme(s, 0)
  }

  function ScanScheme(s: string, i: nat): Option<(string, string)>
    requires i <= |s|
    decreases |s| - i
  {
    if i == |s| then Some(("", s))
    else if IsLetter(s[i]) then ScanScheme(s, i + 1)
    else if IsSchemeChar(s[i]) then (if i == 0 then Some(("", s)) else ScanScheme(s, i + 1))
    else if s[i] == ':' then (if i == 0 then None else Some((s[..i], s[i + 1..])))
    else Some(("", s))
  }

  /** Go's `validOptionalPort`: empty, or ':' followed by digits. */
  predicate ValidOptionalPort(p: string) {
    p == "" || (p[0] == ':' && AllDigits(p[1..]))
  }

  /**
   * Go's `parseHost` on "host[:port]": a bracketed host may be followed only
   * by a port; otherwise whatever follows the last ':' must be a port.
   */
  function ParseHost(h: string): (r: Option<string>)
    ensures r.Some? ==> r.value == h
  {
    if !(forall c :: c in h ==> IsHostChar(c)) then None
    else if |h| > 0 && h[0] == '[' then
      match FindLast(h, ']')
      case None => None
      case Some(i) => if ValidOptionalPort(h[i + 1..]) then Some(h) else None
    else
      match FindLast(h, ':')
      case None => Some(h)
      case Some(i) => if ValidOptionalPort(h[i..]) then Some(h) else None
  }

  /** Go's `parseAuthority`: user information runs up to the last '@'. */
  function ParseAuthority(a: string): (r: Option<Authority>)
    ensures r.Some? ==> ParseHost(r.value.host) == Some(r.value.host)
  {
    match FindLast(a, '@')
    case None =>
      (match ParseHost(a)
       case Some(h) => Some(Authority(None, h))
       case None => None)
    case Some(i) =>
      var user := a[..i];
      match ParseHost(a[i + 1..])
      case Some(h) =>
        if IsUserinfo(user)
        then Some(Authority(Some(user), h))
        else None
      case None => None
  }

  /** The authority ends at the first '/', where the path begins. */
  function SplitAuthority(s: string): (r: (string, string))
    ensures s == r.0 + r.1 && '/' !in r.0
    ensures r.1 == "" || r.1[0] == '/'
  {
    match Find(s, '/')
    case None => (s, "")
    case Some(i) =>
      assert s == s[..i] + s[i..];
      (s[..i], s[i..])
  }

  /** Go's `parse` on the text before the fragment. */
  function ParseReference(s: string): (r: Option<Url>)
    ensures r.Some? ==> r.value.fragment == "" && HostParses(r.value)
  {
    if !NoControl(s) then None
    else match GetScheme(s)
      case None => None
      case Some((scheme, afterScheme)) =>
        var (rest, query) := Cut(afterScheme, '?');
        ParseHierarchy(ToLower(scheme), rest, query)
  }

  /**
   * What follows the scheme, without the query: opaque text, an authority
   * and a path, or a path alone.
   */
  function ParseHierarchy(scheme: string, rest: string, query: Option<string>): (r: Option<Url>)
    ensures r.Some? ==> r.value.fragment == "" && r.value.query == query && r.value.scheme == scheme
    ensures r.Some? ==> HostParses(r.value)
  {
    if !StartsWith(rest, "/") && scheme != "" then
      Some(Url(scheme, rest, None, "", query, ""))
    else if !StartsWith(rest, "/") && ':' in Cut(rest, '/').0 then
      None
    else if StartsWith(rest, "//") && (scheme != "" || !StartsWith(rest, "///")) then
      var (authority, path) := SplitAuthority(rest[2..]);
      match ParseAuthority(authority)
      case None => None
      case Some(a) => if ValidEscapes(path) then Some(Url(scheme, "", Some(a), path, query, "")) else None
    else if ValidEscapes(rest) then
      Some(Url(scheme, "", None, rest, query, ""))
    else None
  }

  /** The host of a URL with an authority is one Go's `parseHost` accepts. */
  predicate HostParses(u: Url) {
    u.authority.Some? ==> ParseHost(u.Host()).Some?
  }

  /**
   * Go's `url.Parse`: the fragment is whatever follows the first '#'.  Every
   * host it returns passed `parseHost`.
   */
  function Parse(s: string): (r: Option<Url>)
    ensures r.Some? ==> HostParses(r.value)
  {
    var (reference, fragment) := Cut(s, '#');
    WithFragment(ParseReference(reference), fragment)
  }

  /** Go's `setFragment`, after the reference has been parsed. */
  function WithFragment(reference: Option<Url>, fragment: Option<string>): (r: Option<Url>)
    ensures reference.Some? && HostParses(reference.value) && r.Some? ==> HostParses(r.value)
  {
    match (reference, fragment)
    case (None, _) => None
    case (Some(u), None) => Some(u)
    case (Some(u), Some(f)) => if ValidEscapes(f) then Some(u.(fragment := f)) else None
  }

  // ------------------------------------------------------------ printing

  /** Go's `escape(host, encodeHost)`: bytes from 0x80 up are percent-encoded. */
  function EscapeHost(h: string): string {
    if |h| == 0 then ""
    else
      var c := h[0];
      (if c as int < 0x80 then [c]
       else ['%', UpperHexDigit(c as int / 16 % 16), UpperHexDigit(c as int % 16)])
      + EscapeHost(h[1..])
  }

  /** The "//user@host" part, written as Go's `URL.String` writes it. */
  function AuthorityText(u: Url): string {
    match u.authority
    case None => ""
    case Some(a) =>
      if (u.scheme != "" || a.host != "" || a.user.Some?) && (a.host != "" || u.path != "" || a.user.Some?)
      then "//" + (if a.user.Some? then a.user.value + "@" else "") + EscapeHost(a.host)
      else ""
  }

  /** Go's `URL.String`. */
  function ToString(u: Url): string {
    var authority := AuthorityText(u);
    (if u.scheme != "" then u.scheme + ":" else "")
    + (if u.opaquePart != "" then u.opaquePart
       else
         authority
         + (if u.path != "" && u.path[0] != '/' && u.Host() != "" then "/" else "")
         + (if u.scheme == "" && authority == "" && ':' in Cut(u.path, '/').0 then "./" else "")
         + u.path)
    + (if u.query.Some? then "?" + u.query.value else "")
    + (if u.fragment != "" then "#" + u.fragment else "")
  }

  // ------------------------------------------------------------ path escapes

  /**
   * A byte Go's `url.PathEscape` leaves as it is in a path segment: the
   * unreserved marks and '$', '&', '+', ':', '=' and '@'.
   */
  predicate IsSegmentChar(c: char) {
    IsAlnum(c) || c == '-' || c == '.' || c == '_' || c == '~' ||
    c == '$' || c == '&' || c == '+' || c == ':' || c == '=' || c == '@'
  }

  /**
   * Go's `url.PathEscape`: every other byte becomes '%' and two upper-case
   * hexadecimal digits.  The result holds only escapes and segment bytes.
   */
  function PathEscape(s: string): (r: string)
    ensures ValidEscapes(r)
    ensures forall c :: c in r ==> IsSegmentChar(c) || c == '%'
  {
    if |s| == 0 then ""
    else
      var rest := PathEscape(s[1..]);
      if IsSegmentChar(s[0]) then
        assert ([s[0]] + rest)[1..] == rest;
        [s[0]] + rest
      else
        var e := ['%', UpperHexDigit(s[0] as int / 16 % 16), UpperHexDigit(s[0] as int % 16)];
        assert (e + rest)[3..] == rest;
        e + rest
  }

  /**
   * Go's `unescape(s, encodePath)` on a path `Parse` accepted: each escape
   * becomes the byte it names, and '+' stays '+'.
   */
  function PathUnescape(s: string): string
    decreases |s|
  {
    if |s| == 0 then ""
    else if s[0] == '%' && |s| >= 3 && IsHexDigit(s[1]) && IsHexDigit(s[2]) then
      [(HexDigitValue(s[1]) * 16 + HexDigitValue(s[2])) as char] + PathUnescape(s[3..])
    else [s[0]] + PathUnescape(s[1..])
  }

  /** Unescaping undoes `PathEscape` on every byte string. */
  lemma {:induction false} PathUnescapeEscape(s: string)
    requires IsByteString(s)
    ensures PathUnescape(PathEscape(s)) == s
    decreases |s|
  {
    if |s| > 0 {
      assert IsByteString(s[1..]) by {
        forall i | 0 <= i < |s[1..]| ensures s[1..][i] as int < 256 { assert s[1..][i] == s[i + 1]; }
      }
      PathUnescapeEscape(s[1..]);
      if IsSegmentChar(s[0]) {
        UnescapeKept(s[0], PathEscape(s[1..]));
      } else {
        UnescapeEscaped(s[0], PathEscape(s[1..]));
      }
      assert s == [s[0]] + s[1..];
    }
  }

  /** A segment byte stays as it is. */
  lemma UnescapeKept(c: char, rest: string)
    requires IsSegmentChar(c)
    ensures PathUnescape([c] + rest) == [c] + PathUnescape(rest)
  {
    assert ([c] + rest)[1..] == rest;
  }

  /** The escape `PathEscape` writes for a byte unescapes to that byte. */
  lemma UnescapeEscaped(c: char, rest: string)
    requires c as int < 256
    ensures PathUnescape(['%', UpperHexDigit(c as int / 16 % 16), UpperHexDigit(c as int % 16)] + rest)
         == [c] + PathUnescape(rest)
  {
    var e := ['%', UpperHexDigit(c as int / 16 % 16), UpperHexDigit(c as int % 16)];
    assert (e + rest)[3..] == rest;
    assert c as int / 16 % 16 == c as int / 16;
    assert (c as int / 16 % 16 * 16 + c as int % 16) as char == c;
  }

  /** Text without '%' passes through unescaping unchanged, ahead of the rest. */
  lemma {:induction false} PathUnescapePlain(a: string, b: string)
    requires '%' !in a
    ensures PathUnescape(a + b) == a + PathUnescape(b)
    decreases |a|
  {
    if |a| > 0 {
      assert a[0] in a;
      assert forall c :: c in a[1..] ==> c in a;
      assert (a + b)[1..] == a[1..] + b;
      PathUnescapePlain(a[1..], b);
      assert a == [a[0]] + a[1..];
    } else {
      assert a + b == b;
    }
  }

  /** Text without '%' is its own unescaping. */
  lemma PlainUnescaped(s: string)
    requires '%' !in s
    ensures PathUnescape(s) == s
  {
    PathUnescapePlain(s, "");
    assert s + "" == s;
  }

  /** Text without '%' ahead of escaped text keeps every escape valid. */
  lemma {:induction false} ValidEscapesAfterPlain(a: string, b: string)
    requires '%' !in a && ValidEscapes(b)
    ensures ValidEscapes(a + b)
    decreases |a|
  {
    if |a| > 0 {
      assert a[0] in a;
      assert forall c :: c in a[1..] ==> c in a;
      assert (a + b)[1..] == a[1..] + b;
      ValidEscapesAfterPlain(a[1..], b);
    } else {
      assert a + b == b;
    }
  }

  // ------------------------------------------------------------ round trip

  /** A lower-case scheme, as `Parse` leaves it. */
  predicate IsScheme(s: string) {
    |s| >= 1 && 'a' <= s[0] <= 'z' &&
    forall c :: c in s ==> IsSchemeChar(c) && !('A' <= c <= 'Z')
  }

  /** A non-empty ASCII host, with an optional port, that `ParseHost` accepts. */
  predicate IsPlainHost(h: string) {
    h != "" && (forall c :: c in h ==> IsAsciiHostChar(c)) && ParseHost(h).Some?
  }

  /**
   * A URL with a scheme and a host whose every part `Parse` reads back as
   * written: what `ToString` prints of it is unambiguous.
   */
  predicate WellFormed(u: Url) {
    u.opaquePart == "" && IsScheme(u.scheme) && u.authority.Some? &&
    IsPlainHost(u.authority.value.host) &&
    (u.authority.value.user.Some? ==> IsUserinfo(u.authority.value.user.value)) &&
    (u.path == "" || u.path[0] == '/') && '?' !in u.path && '#' !in u.path &&
    NoControl(u.path) && ValidEscapes(u.path) &&
    (u.query.Some? ==> '#' !in u.query.value && NoControl(u.query.value)) &&
    ValidEscapes(u.fragment)
  }

  lemma EscapeAsciiHost(h: string)
    requires forall c :: c in h ==> IsAsciiHostChar(c)
    ensures EscapeHost(h) == h
  {
    if |h| > 0 {
      assert h[0] in h;
      assert forall c :: c in h[1..] ==> c in h;
      EscapeAsciiHost(h[1..]);
    }
  }

  lemma {:induction false} ScanSchemeOf(scheme: string, rest: string, i: nat)
    requires IsScheme(scheme) && i <= |scheme|
    ensures ScanScheme(scheme + ":" + rest, i) == Some((scheme, rest))
    decreases |scheme| - i
  {
    var s := scheme + ":" + rest;
    if i < |scheme| {
      assert s[i] == scheme[i] && scheme[i] in scheme;
      assert i == 0 ==> IsLetter(s[i]);
      ScanSchemeOf(scheme, rest, i + 1);
    } else {
      assert s[..i] == scheme && s[i + 1..] == rest;
    }
  }

  lemma ToLowerScheme(scheme: string)
    requires IsScheme(scheme)
    ensures ToLower(scheme) == scheme
  {
    forall i | 0 <= i < |scheme| ensures ToLower(scheme)[i] == scheme[i] {
      assert scheme[i] in scheme;
    }
  }

  lemma HostHasNo(host: string, c: char)
    requires forall x :: x in host ==> IsAsciiHostChar(x)
    requires c == '@' || c == '/' || c == '?' || c == '#' || c == '%'
    ensures c !in host
  {
    forall x | x in host ensures x != c { assert IsAsciiHostChar(x); }
  }

  lemma ParseAuthorityHost(host: string)
    requires IsPlainHost(host)
    ensures ParseAuthority(host) == Some(Authority(None, host))
  {
    HostHasNo(host, '@');
  }

  lemma ParseAuthorityUserHost(user: string, host: string)
    requires IsPlainHost(host) && IsUserinfo(user)
    ensures ParseAuthority(user + "@" + host) == Some(Authority(Some(user), host))
  {
    HostHasNo(host, '@');
    var a := user + "@" + host;
    assert a[|user|] == '@';
    assert a[|user| + 1..] == host;
    FindLastIs(a, '@', |user|);
    assert a[..|user|] == user;
  }

  /** What `ToString` prints of a well-formed URL, before its fragment. */
  function Reference(u: Url): string
    requires WellFormed(u)
  {
    u.scheme + ":" + "//" + AuthorityPart(u.authority.value) + u.path + QueryPart(u.query)
  }

  function AuthorityPart(a: Authority): string {
    (if a.user.Some? then a.user.value + "@" else "") + a.host
  }

  function QueryPart(query: Option<string>): string {
    if query.Some? then "?" + query.value else ""
  }

  function FragmentPart(fragment: string): string {
    if fragment != "" then "#" + fragment else ""
  }

  lemma Regroup(s: string, auth: string, p: string, q: string, f: string)
    ensures s + ("//" + auth + p) + q + f == (s + "//" + auth + p + q) + f
  {
  }

  lemma AuthorityTextOf(u: Url)
    requires u.authority.Some? && IsPlainHost(u.authority.value.host)
    ensures AuthorityText(u) == "//" + AuthorityPart(u.authority.value)
  {
    EscapeAsciiHost(u.authority.value.host);
  }

  lemma ToStringWellFormed(u: Url)
    requires WellFormed(u)
    ensures ToString(u) == Reference(u) + FragmentPart(u.fragment)
  {
    var a := u.authority.value;
    var s := u.scheme + ":";
    var authority := AuthorityText(u);
    var mid := authority + (if u.path != "" && u.path[0] != '/' && u.Host() != "" then "/" else "")
      + (if u.scheme == "" && authority == "" && ':' in Cut(u.path, '/').0 then "./" else "")
      + u.path;
    assert ToString(u) == s + mid + QueryPart(u.query) + FragmentPart(u.fragment);
    assert mid == "//" + AuthorityPart(a) + u.path by {
      AuthorityTextOf(u);
    }
    Regroup(s, AuthorityPart(a), u.path, QueryPart(u.query), FragmentPart(u.fragment));
  }

  lemma NoControlScheme(scheme: string)
    requires IsScheme(scheme)
    ensures NoControl(scheme) && '#' !in scheme
  {
    forall c | c in scheme ensures !IsControl(c) && c != '#' { assert IsSchemeChar(c); }
  }

  /** The characters of a well-formed authority that matter to `Parse`. */
  lemma AuthorityChars(a: Authority)
    requires IsPlainHost(a.host)
    requires a.user.Some? ==> IsUserinfo(a.user.value)
    ensures var t := AuthorityPart(a); NoControl(t) && '?' !in t && '/' !in t && '#' !in t
  {
    forall c | c in a.host ensures !IsControl(c) && c != '?' && c != '/' && c != '#' {
      assert IsAsciiHostChar(c);
    }
    if a.user.Some? {
      forall c | c in a.user.value ensures !IsControl(c) && c != '?' && c != '/' && c != '#' {
        assert IsUserinfoChar(c);
      }
    }
  }

  lemma ParseAuthorityPart(a: Authority)
    requires IsPlainHost(a.host)
    requires a.user.Some? ==> IsUserinfo(a.user.value)
    ensures ParseAuthority(AuthorityPart(a)) == Some(a)
  {
    if a.user.Some? {
      ParseAuthorityUserHost(a.user.value, a.host);
    } else {
      assert AuthorityPart(a) == a.host;
      ParseAuthorityHost(a.host);
    }
  }

  lemma DropSlashes(auth: string, path: string)
    ensures StartsWith("//" + auth + path, "/") && StartsWith("//" + auth + path, "//")
    ensures ("//" + auth + path)[2..] == auth + path
  {
    assert ("//" + auth + path)[..1] == "/";
    assert ("//" + auth + path)[..2] == "//";
  }

  lemma SplitAuthorityOf(auth: string, path: string)
    requires '/' !in auth && (path == "" || path[0] == '/')
    ensures SplitAuthority(auth + path) == (auth, path)
  {
    if path == "" {
      assert auth + path == auth;
      CutAbsent(auth, '/');
    } else {
      FindIs(auth + path, '/', |auth|);
      assert (auth + path)[..|auth|] == auth;
      assert (auth + path)[|auth|..] == path;
    }
  }

  lemma ParseHierarchyOf(scheme: string, auth: string, a: Authority, path: string, query: Option<string>)
    requires scheme != ""
    requires '/' !in auth && ParseAuthority(auth) == Some(a)
    requires (path == "" || path[0] == '/') && ValidEscapes(path)
    ensures ParseHierarchy(scheme, "//" + auth + path, query) == Some(Url(scheme, "", Some(a), path, query, ""))
  {
    DropSlashes(auth, path);
    SplitAuthorityOf(auth, path);
  }

  lemma CutQuery(rest: string, query: Option<string>)
    requires '?' !in rest
    ensures Cut(rest + QueryPart(query), '?') == (rest, query)
  {
    if query.Some? {
      assert rest + QueryPart(query) == rest + ['?'] + query.value;
      CutAt(rest, '?', query.value);
    } else {
      assert rest + QueryPart(query) == rest;
      CutAbsent(rest, '?');
    }
  }

  /** After a lower-case scheme, `ParseReference` reads the rest by `ParseHierarchy`. */
  lemma ParseReferenceScheme(scheme: string, after: string)
    requires IsScheme(scheme) && NoControl(after)
    ensures ParseReference(scheme + ":" + after)
      == ParseHierarchy(scheme, Cut(after, '?').0, Cut(after, '?').1)
  {
    assert NoControl(scheme + ":" + after) by {
      NoControlScheme(scheme);
    }
    ScanSchemeOf(scheme, after, 0);
    ToLowerScheme(scheme);
  }

  /** `ParseReference` on "scheme://authority/path?query", part by part. */
  lemma ParseReferenceParts(scheme: string, auth: string, a: Authority, path: string, query: Option<string>)
    requires IsScheme(scheme)
    requires NoControl(auth) && '?' !in auth && '/' !in auth && ParseAuthority(auth) == Some(a)
    requires (path == "" || path[0] == '/') && '?' !in path && NoControl(path) && ValidEscapes(path)
    requires query.Some? ==> NoControl(query.value)
    ensures ParseReference(scheme + ":" + "//" + auth + path + QueryPart(query))
      == Some(Url(scheme, "", Some(a), path, query, ""))
  {
    var rest := "//" + auth + path;
    var q := QueryPart(query);
    AfterScheme(scheme, auth, path, q);
    ParseReferenceScheme(scheme, rest + q);
    CutQuery(rest, query);
    ParseHierarchyOf(scheme, auth, a, path, query);
  }

  /** The text after the scheme's colon, grouped. */
  lemma AfterScheme(scheme: string, auth: string, path: string, q: string)
    ensures scheme + ":" + "//" + auth + path + q == scheme + ":" + (("//" + auth + path) + q)
  {
  }

  lemma ParseReferenceOf(u: Url)
    requires WellFormed(u)
    ensures ParseReference(Reference(u)) == Some(u.(fragment := ""))
  {
    var a := u.authority.value;
    AuthorityChars(a);
    ParseAuthorityPart(a);
    ParseReferenceParts(u.scheme, AuthorityPart(a), a, u.path, u.query);
  }

  lemma ParseWithFragment(r: string, f: string, v: Url)
    requires '#' !in r && ParseReference(r) == Some(v) && ValidEscapes(f)
    ensures Parse(r + FragmentPart(f)) == Some(v.(fragment := f))
  {
    if f != "" {
      assert r + FragmentPart(f) == r + ['#'] + f;
      CutAt(r, '#', f);
    } else {
      assert r + FragmentPart(f) == r;
      CutAbsent(r, '#');
    }
  }

  /** `Parse` reads back exactly the well-formed URL that `ToString` printed. */
  lemma ParseToString(u: Url)
    requires WellFormed(u)
    ensures Parse(ToString(u)) == Some(u)
  {
    ToStringWellFormed(u);
    assert '#' !in Reference(u) by {
      NoControlScheme(u.scheme);
      AuthorityChars(u.authority.value);
    }
    ParseReferenceOf(u);
    ParseWithFragment(Reference(u), u.fragment, u.(fragment := ""));
    assert u.(fragment := "").(fragment := u.fragment) == u;
  }

  /** A fragment printed after a well-formed URL without one parses back as that URL's fragment. */
  lemma ParseAddFragment(u: Url, f: string)
    requires WellFormed(u) && u.fragment == "" && ValidEscapes(f)
    ensures Parse(ToString(u) + FragmentPart(f)) == Some(u.(fragment := f))
  {
    ReferenceText(u);
    ParseReferenceOf(u);
    assert u.(fragment := "") == u;
    ParseWithFragment(Reference(u), f, u);
  }

  /** A well-formed URL without a fragment prints as its reference, which holds no '#'. */
  lemma ReferenceText(u: Url)
    requires WellFormed(u) && u.fragment == ""
    ensures ToString(u) == Reference(u) && '#' !in Reference(u)
  {
    ToStringWellFormed(u);
    NoControlScheme(u.scheme);
    AuthorityChars(u.authority.value);
  }

  /** An "http" URL with a host and a path, and no user, query or fragment. */
  function HttpUrl(host: string, path: string): (u: Url)
    ensures u.Host() == host && u.path == path
  {
    Url("http", "", Some(Authority(None, host)), path, None, "")
  }

  lemma HttpPrefix()
    ensures "http" + ":" + "//" == "http://"
  {
  }

  /** Such a URL with a plain host and an absolute path prints as "http://" + host + path. */
  lemma HttpUrlText(host: string, path: string)
    requires IsPlainHost(host)
    requires path == "" || path[0] == '/'
    requires '?' !in path && '#' !in path && NoControl(path) && ValidEscapes(path)
    ensures WellFormed(HttpUrl(host, path))
    ensures ToString(HttpUrl(host, path)) == "http://" + host + path
  {
    var u := HttpUrl(host, path);
    assert IsScheme("http");
    ToStringWellFormed(u);
    assert AuthorityPart(u.authority.value) == host;
    assert Reference(u) == "http" + ":" + "//" + host + path + "";
    HttpPrefix();
  }

  /** Text without '%' holds no escape to check. */
  lemma {:induction false} NoPercentEscapes(s: string)
    requires '%' !in s
    ensures ValidEscapes(s)
    decreases |s|
  {
    if |s| > 0 {
      assert s[0] != '%';
      assert forall c :: c in s[1..] ==> c in s;
      NoPercentEscapes(s[1..]);
    }
  }
}

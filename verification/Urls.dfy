/** URLs as text: splitting and printing them as `net/url` does, and resolving a reference against a base. Percent escapes
    are kept as written. */
module Urls {
  import opened Wrappers
  import opened Text
  import opened Paths

  /** An absolute URL without credentials or fragment. `host` is the authority, port included; an empty query is none. */
  datatype Url = Url(scheme: string, host: string, path: string, query: string)

  function QuerySuffix(query: string): string {
    if query == "" then "" else "?" + query
  }

  function Print(u: Url): string {
    u.scheme + "://" + u.host + u.path + QuerySuffix(u.query)
  }

  /** What `url.Parse` makes of a string. `rooted` is whether an authority was present, `bare` a body without a slash
      after a scheme, `user` the credentials, if any. */
  datatype Ref = Ref(scheme: string, bare: bool, rooted: bool, user: Option<string>, host: string, path: string, query: string,
                     fragment: string)

  predicate IsLetter(c: char) {
    'a' <= c <= 'z' || 'A' <= c <= 'Z'
  }

  predicate IsSchemeChar(c: char) {
    IsLetter(c) || '0' <= c <= '9' || c == '+' || c == '-' || c == '.'
  }

  function SchemeLength(s: string): (n: nat)
    ensures n <= |s|
    ensures forall k :: 0 <= k < n ==> IsSchemeChar(s[k])
    ensures n < |s| ==> !IsSchemeChar(s[n])
  {
    if s == "" || !IsSchemeChar(s[0]) then 0 else 1 + SchemeLength(s[1..])
  }

  /** The scheme, lower-cased, and what follows its colon; `None` is a URL that starts with a colon. */
  function SplitScheme(s: string): Option<(string, string)> {
    var n := SchemeLength(s);
    if n == |s| || s[n] != ':' then Some(("", s))
    else if n == 0 then None
    else if !IsLetter(s[0]) then Some(("", s))
    else Some((Lower(s[..n]), s[n + 1..]))
  }

  /** An optional ":" and digits after the last colon of a host, or after its closing bracket. */
  predicate PortAllowed(host: string) {
    if host != "" && host[0] == '[' then
      match Last(host, ']')
      case None => false
      case Some(i) => i + 1 == |host| || (host[i + 1] == ':' && AllDigits(host[i + 2..]))
    else
      match Last(host, ':')
      case None => true
      case Some(i) => AllDigits(host[i + 1..])
  }

  function SplitAuthority(authority: string): Option<(Option<string>, string)> {
    var (user, host) := match Last(authority, '@')
                        case None => (None, authority)
                        case Some(i) => (Some(authority[..i]), authority[i + 1..]);
    if PortAllowed(host) && NoSpace(host) then Some((user, host)) else None
  }

  function SplitPath(rest: string, scheme: string, query: string, fragment: string): Option<Ref> {
    if rest == "" || rest[0] != '/' then
      if scheme != "" then Some(Ref(scheme, rest != "", false, None, "", "", query, fragment))
      else if ':' in rest[..First(rest, '/')] then None
      else Some(Ref(scheme, false, false, None, "", rest, query, fragment))
    else if |rest| >= 2 && rest[1] == '/' && (scheme != "" || |rest| == 2 || rest[2] != '/') then
      var after := rest[2..];
      var i := First(after, '/');
      match SplitAuthority(after[..i])
      case None => None
      case Some((user, host)) => Some(Ref(scheme, false, true, user, host, after[i..], query, fragment))
    else Some(Ref(scheme, false, false, None, "", rest, query, fragment))
  }

  function ParseRef(s: string): Option<Ref> {
    var (whole, fragment) := Cut(s, '#');
    match SplitScheme(whole)
    case None => None
    case Some((scheme, body)) =>
      var (front, query) := Cut(body, '?');
      SplitPath(front, scheme, query, fragment)
  }

  /** `URL.String` for a URL with an authority. */
  function PrintRef(r: Ref): string {
    var credentials := match r.user case None => "" case Some(user) => user + "@";
    r.scheme + "://" + credentials + r.host + r.path + QuerySuffix(r.query) + FragmentSuffix(r.fragment)
  }

  // ----- printing then parsing --------------------------------------------------------------

  predicate PlainPath(path: string) {
    (path == "" || path[0] == '/') && '?' !in path && '#' !in path
  }

  /** Nothing an authority or a URL is split at, and no white space. */
  predicate HostText(host: string) {
    '/' !in host && '?' !in host && '#' !in host && '@' !in host && NoSpace(host)
  }

  predicate PlainHost(host: string) {
    HostText(host) && PortAllowed(host)
  }

  predicate PlainScheme(scheme: string) {
    scheme != "" && IsLetter(scheme[0]) && (forall c :: c in scheme ==> IsSchemeChar(c)) && Lower(scheme) == scheme
  }

  /** The printed form of `u` reads back as `u`. */
  predicate Plain(u: Url) {
    PlainScheme(u.scheme) && PlainHost(u.host) && PlainPath(u.path) && '#' !in u.query
  }

  function RefOf(u: Url, fragment: string): Ref {
    Ref(u.scheme, false, true, None, u.host, u.path, u.query, fragment)
  }

  function FragmentSuffix(fragment: string): string {
    if fragment == "" then "" else "#" + fragment
  }

  lemma SplitSchemeOf(scheme: string, rest: string)
    requires PlainScheme(scheme)
    ensures SplitScheme(scheme + ":" + rest) == Some((scheme, rest))
  {
    var s := scheme + ":" + rest;
    var n := SchemeLength(s);
    assert s[|scheme|] == ':' && !IsSchemeChar(':');
    assert n <= |scheme|;
    assert s[..|scheme|] == scheme && s[|scheme| + 1..] == rest;
  }

  lemma SplitPathOf(scheme: string, host: string, path: string, query: string, fragment: string)
    requires scheme != "" && HostText(host) && PlainPath(path)
    ensures SplitPath("//" + host + path, scheme, query, fragment)
            == if PortAllowed(host) then Some(Ref(scheme, false, true, None, host, path, query, fragment)) else None
  {
    hide PortAllowed, NoSpace;
    var rest := "//" + host + path;
    var after := rest[2..];
    assert after == host + path;
    FirstIs(host, '/', path);
    assert after[..|host|] == host && after[|host|..] == path;
  }

  /** What `ParseRef` does once the pieces are known to be free of the separators. */
  lemma ParsePieces(scheme: string, front: string, query: string, fragment: string)
    requires PlainScheme(scheme) && '#' !in scheme && '#' !in front && '?' !in front && '#' !in query
    ensures ParseRef(scheme + ":" + front + QuerySuffix(query) + FragmentSuffix(fragment))
            == SplitPath(front, scheme, query, fragment)
  {
    hide PlainScheme, SplitScheme, SplitPath, Cut;
    var body := front + QuerySuffix(query);
    var whole := scheme + ":" + body;
    var s := scheme + ":" + front + QuerySuffix(query) + FragmentSuffix(fragment);
    assert s == if fragment == "" then whole else whole + ['#'] + fragment;
    assert body == if query == "" then front else front + ['?'] + query;
    CutOf(whole, '#', fragment);
    SplitSchemeOf(scheme, body);
    CutOf(front, '?', query);
  }

  /** The printed form of a URL reads back unless what follows a colon in its authority is no port. */
  lemma ParseTyped(u: Url, fragment: string)
    requires PlainScheme(u.scheme) && HostText(u.host) && PlainPath(u.path) && '#' !in u.query
    ensures ParseRef(Print(u) + FragmentSuffix(fragment)) == if PortAllowed(u.host) then Some(RefOf(u, fragment)) else None
  {
    hide SplitPath, ParseRef, PortAllowed, NoSpace;
    var front := "//" + u.host + u.path;
    assert !IsSchemeChar('#');
    assert '#' !in front && '?' !in front;
    ParsePieces(u.scheme, front, u.query, fragment);
    hide PlainScheme;
    assert Print(u) == u.scheme + ":" + front + QuerySuffix(u.query);
    SplitPathOf(u.scheme, u.host, u.path, u.query, fragment);
  }

  lemma ParsePrinted(u: Url, fragment: string)
    requires Plain(u)
    ensures ParseRef(Print(u) + FragmentSuffix(fragment)) == Some(RefOf(u, fragment))
  {
    ParseTyped(u, fragment);
  }

  /** The host of a parsed reference is free of what URLs are split at, and so is its name. */
  lemma RefHostText(s: string)
    requires ParseRef(s).Some?
    ensures HostText(ParseRef(s).value.host)
  {
    hide SplitScheme, SplitPath, HostText;
    var (whole, fragment) := Cut(s, '#');
    var (scheme, body) := SplitScheme(whole).value;
    var (front, query) := Cut(body, '?');
    SplitSchemeSuffix(whole);
    assert forall c :: c in front ==> c in body && c in whole;
    SplitPathHostText(front, scheme, query, fragment);
  }

  lemma SplitPathHostText(front: string, scheme: string, query: string, fragment: string)
    requires '?' !in front && '#' !in front && SplitPath(front, scheme, query, fragment).Some?
    ensures HostText(SplitPath(front, scheme, query, fragment).value.host)
  {
    hide NoSpace, SplitAuthority;
    EmptyHasNoSpace();
    if |front| >= 2 && front[0] == '/' && front[1] == '/' {
      var after := front[2..];
      var authority := after[..First(after, '/')];
      assert forall c :: c in authority ==> c in front;
      if SplitAuthority(authority).Some? {
        AuthorityHostText(authority);
      }
    }
  }

  lemma EmptyHasNoSpace()
    ensures NoSpace("")
  {
  }

  lemma SplitSchemeSuffix(s: string)
    requires SplitScheme(s).Some?
    ensures forall c :: c in SplitScheme(s).value.1 ==> c in s
  {
  }

  lemma AuthorityHostText(authority: string)
    requires '/' !in authority && '?' !in authority && '#' !in authority && SplitAuthority(authority).Some?
    ensures HostText(SplitAuthority(authority).value.1)
  {
    hide NoSpace, PortAllowed;
    var host := SplitAuthority(authority).value.1;
    assert forall c :: c in host ==> c in authority;
  }

  // ----- hosts and ports --------------------------------------------------------------------

  /** `URL.Hostname`. */
  function Hostname(host: string): string {
    Unbracket(match Last(host, ':') case Some(i) => (if AllDigits(host[i + 1..]) then host[..i] else host) case None => host)
  }

  function Unbracket(host: string): string {
    if |host| >= 2 && host[0] == '[' && host[|host| - 1] == ']' then host[1..|host| - 1] else host
  }

  /** `URL.Port`. */
  function Port(host: string): (port: string)
    ensures AllDigits(port)
  {
    match Last(host, ':')
    case Some(i) => if AllDigits(host[i + 1..]) then host[i + 1..] else ""
    case None => ""
  }

  function DefaultPort(scheme: string): nat {
    if scheme == "https" then 443 else 80
  }

  function JoinHostPort(host: string, port: nat): string {
    if ':' in host then "[" + host + "]:" + Itoa(port) else host + ":" + Itoa(port)
  }

  function HostWithPort(host: string, port: nat, scheme: string): string {
    if (scheme == "http" && port == 80) || (scheme == "https" && port == 443) then host else JoinHostPort(host, port)
  }

  function PortNumber(host: string, scheme: string): nat {
    if Port(host) == "" then DefaultPort(scheme) else Atoi(Port(host))
  }

  predicate IsWeb(scheme: string) {
    scheme == "http" || scheme == "https"
  }

  lemma SplitHostPort(host: string, digits: string)
    requires digits != "" && AllDigits(digits)
    ensures var h := host + [':'] + digits;
            Hostname(h) == Unbracket(host) && Port(h) == digits
  {
    var h := host + [':'] + digits;
    assert ':' !in digits;
    LastIs(host, ':', digits);
    assert h[|host| + 1..] == digits && h[..|host|] == host;
  }

  lemma PortAllowedAfter(host: string, digits: string)
    requires digits != "" && AllDigits(digits)
    requires '[' !in host || (host[0] == '[' && host[|host| - 1] == ']')
    ensures PortAllowed(host + [':'] + digits)
  {
    assert ':' !in digits;
    hide AllDigits, Last;
    if host != "" && host[0] == '[' {
      BracketedPort(host[..|host| - 1], digits);
      assert host == host[..|host| - 1] + [']'];
    } else {
      var h := host + [':'] + digits;
      assert h[0] != '[';
      LastIs(host, ':', digits);
      assert h[|host| + 1..] == digits;
    }
  }

  lemma BracketedPort(front: string, digits: string)
    requires front != "" && front[0] == '[' && AllDigits(digits)
    ensures PortAllowed(front + [']'] + [':'] + digits)
  {
    var h := front + [']'] + [':'] + digits;
    var tail := [':'] + digits;
    assert ']' !in tail;
    LastIs(front, ']', tail);
    hide AllDigits, Last;
    assert h == front + [']'] + tail;
    assert h[0] == '[' && h[|front| + 1] == ':' && h[|front| + 2..] == digits;
  }

  /** The authority printed for a host and port reads back as them if and only if the host has no colon or the port is
      not the scheme's default: an address with colons is printed without its brackets at the default port, and then
      its last group is taken for the port, or the authority is rejected. */
  lemma HostWithPortReadsBack(host: string, port: nat, scheme: string)
    requires IsWeb(scheme) && '[' !in host && ']' !in host
    ensures var h := HostWithPort(host, port, scheme);
            PortAllowed(h) && Hostname(h) == host && PortNumber(h, scheme) == port
            <==> ':' !in host || port != DefaultPort(scheme)
  {
    hide Itoa, Atoi, PortAllowed, AllDigits;
    var h := HostWithPort(host, port, scheme);
    if port == DefaultPort(scheme) {
      BareHost(host);
      assert h == host;
    } else {
      AtoiInvertsItoa(port);
      var wrapped := if ':' in host then "[" + host + "]" else host;
      assert h == wrapped + [':'] + Itoa(port);
      SplitHostPort(wrapped, Itoa(port));
      PortAllowedAfter(wrapped, Itoa(port));
      Unbracketed(host);
    }
  }

  lemma Unbracketed(host: string)
    requires '[' !in host && ']' !in host
    ensures Unbracket("[" + host + "]") == host && Unbracket(host) == host
  {
    var s := "[" + host + "]";
    assert s[1..|s| - 1] == host;
    assert host != "" ==> host[0] in host;
  }

  lemma BareHost(host: string)
    requires '[' !in host && ']' !in host
    ensures PortAllowed(host) && Hostname(host) == host <==> ':' !in host
    ensures ':' !in host ==> Port(host) == ""
  {
    assert host != "" ==> host[0] in host;
    match Last(host, ':')
    case None =>
    case Some(i) =>
      assert host[i] in host;
      if AllDigits(host[i + 1..]) {
        assert |Hostname(host)| <= i;
      }
  }

  lemma HostnameText(host: string)
    requires HostText(host)
    ensures HostText(Hostname(host))
  {
    hide IsSpace, AllDigits;
    var name := Hostname(host);
    assert exists i, j :: 0 <= i <= j <= |host| && name == host[i..j] by {
      HostnameIsPart(host);
    }
    var i, j :| 0 <= i <= j <= |host| && name == host[i..j];
    assert forall c :: c in name ==> c in host;
  }

  lemma HostnameIsPart(host: string)
    ensures exists i, j :: 0 <= i <= j <= |host| && Hostname(host) == host[i..j]
  {
    hide AllDigits;
    var front := match Last(host, ':')
                 case Some(i) => (if AllDigits(host[i + 1..]) then host[..i] else host)
                 case None => host;
    if |front| >= 2 && front[0] == '[' && front[|front| - 1] == ']' {
      assert Hostname(host) == front[1..|front| - 1] == host[1..|front| - 1];
    } else {
      assert Hostname(host) == front == host[0..|front|];
    }
  }

  // ----- case -------------------------------------------------------------------------------

  lemma {:induction false} LastLower(s: string, c: char)
    requires !('a' <= c <= 'z') && !('A' <= c <= 'Z')
    ensures Last(Lower(s), c) == Last(s, c)
  {
    if s != "" && s[|s| - 1] != c {
      assert Lower(s)[..|s| - 1] == Lower(s[..|s| - 1]);
      LastLower(s[..|s| - 1], c);
    }
  }

  lemma HostnameLower(host: string)
    ensures Hostname(Lower(host)) == Lower(Hostname(host)) && Port(Lower(host)) == Port(host)
  {
    hide AllDigits, Unbracket;
    LastLower(host, ':');
    match Last(host, ':')
    case None =>
      UnbracketLower(host);
    case Some(i) =>
      var tail := host[i + 1..];
      assert Lower(host)[i + 1..] == Lower(tail) && Lower(host)[..i] == Lower(host[..i]);
      DigitsLower(tail);
      UnbracketLower(host);
      UnbracketLower(host[..i]);
  }

  lemma DigitsLower(s: string)
    ensures AllDigits(Lower(s)) <==> AllDigits(s)
    ensures AllDigits(s) ==> Lower(s) == s
  {
    if AllDigits(Lower(s)) {
      forall k | 0 <= k < |s|
        ensures '0' <= s[k] <= '9'
      {
        assert Lower(s)[k] == LowerChar(s[k]);
      }
    }
  }

  lemma UnbracketLower(host: string)
    ensures Unbracket(Lower(host)) == Lower(Unbracket(host))
  {
    if |host| >= 2 && host[0] == '[' && host[|host| - 1] == ']' {
      assert Lower(host)[1..|host| - 1] == Lower(host[1..|host| - 1]);
    }
  }

  // ----- references -------------------------------------------------------------------------

  /** `URL.Parse` on a base: what a reference on that page means. A URL without authority has an empty host. */
  datatype Resolved = Resolved(url: Url, user: bool, fragment: string)

  function ResolveReference(base: Url, ref: Ref): Resolved {
    var scheme := if ref.scheme == "" then base.scheme else ref.scheme;
    if ref.scheme != "" || ref.host != "" || ref.user.Some? then
      Resolved(Url(scheme, ref.host, ResolvePath(ref.path, ""), ref.query), ref.user.Some?, ref.fragment)
    else
      var query := if ref.path == "" && ref.query == "" then base.query else ref.query;
      Resolved(Url(base.scheme, base.host, ResolvePath(base.path, ref.path), query), false, ref.fragment)
  }
}

/** Between upstream origins and proxy subdomains: `routeURL`, host dispatch, `forward`'s target, the mapping of proxy URLs
    back to upstream URLs, and the rewriting of references in pages. */
module Translation {
  import opened Wrappers
  import opened Text
  import opened Paths
  import opened Urls
  import opened Guard
  import opened ProxyStore
  import Labels

  /** The scheme of the management origin and the proxy base domain, which may carry a port. */
  datatype Site = Site(scheme: string, base: string)

  /** `hostname`: an authority without its port, or without a trailing dot. */
  function ServerHostname(value: string): string {
    match Last(value, ':')
    case Some(i) => if ':' in value[..i] then TrimSuffix(value, ".") else value[..i]
    case None => TrimSuffix(value, ".")
  }

  /** The base domain is lower case without a trailing dot, and has at most a numeric port. */
  ghost predicate SiteOk(site: Site) {
    && IsWeb(site.scheme)
    && exists domain: string, digits: string :: BaseIs(site.base, domain, digits)
  }

  predicate BaseIs(base: string, domain: string, digits: string) {
    && base == (if digits == "" then domain else domain + ":" + digits)
    && domain != "" && PlainName(domain)
    && AllDigits(digits)
  }

  function RouteURL(site: Site, id: Labels.Uuid, path: string, query: string): string {
    site.scheme + "://" + Labels.Print(id) + "." + site.base + path + QuerySuffix(query)
  }

  /** The same as a URL. */
  function RouteAt(site: Site, id: Labels.Uuid, path: string, query: string): Url {
    Url(site.scheme, Labels.Print(id) + "." + site.base, path, query)
  }

  /** The origin `createRoute` files a URL under. */
  function OriginOf(u: Url): Origin {
    Origin(u.scheme, Hostname(u.host), PortNumber(u.host, u.scheme))
  }

  // ----- a request to the proxy -------------------------------------------------------------

  /** A browser never sends an empty path. */
  function RequestPath(path: string): string {
    if path == "" then "/" else path
  }

  /** Paths the proxy answers itself. */
  predicate Reserved(path: string) {
    path == "/__tvpn/runtime.js" || path == "/__tvpn/resolve" || path == "/__tvpn/cookie"
    || path == "/__tvpn/mux" || path == "/__tvpn/ws"
  }

  /** The label in front of the base domain, if `host` is below it. */
  function LabelOf(site: Site, host: string): Option<string> {
    var suffix := "." + Lower(ServerHostname(site.base));
    if HasSuffix(Lower(host), suffix) then Some(Lower(host)[..|host| - |suffix|]) else None
  }

  /** `ServeHTTP` up to the choice of route. */
  function Dispatch(site: Site, db: Db, host: string): Option<Route> {
    match LabelOf(site, ServerHostname(host))
    case None => None
    case Some(name) => if '.' in name then None else RouteByLabel(db, name)
  }

  /** The string `forward` hands to the guard. */
  function ForwardTarget(o: Origin, path: string, query: string): string {
    o.scheme + "://" + HostWithPort(o.host, o.port, o.scheme) + path + QuerySuffix(query)
  }

  /** Where a request for `u` ends up: the normalised upstream target, or nowhere. */
  function Serve(site: Site, g: Guard.Config, db: Db, u: Url): Option<Url> {
    match Dispatch(site, db, u.host)
    case None => None
    case Some(route) =>
      if Reserved(RequestPath(u.path)) then None
      else Normalize(g, ForwardTarget(route.origin, RequestPath(u.path), u.query))
  }

  lemma ServerHostnameOf(host: string, digits: string)
    requires host != "" && host[|host| - 1] != '.' && ':' !in host && AllDigits(digits)
    ensures ServerHostname(if digits == "" then host else host + ":" + digits) == host
  {
    if digits == "" {
      assert Last(host, ':') == None;
      assert host[|host| - 1..][0] == host[|host| - 1];
    } else {
      assert ':' !in digits;
      hide AllDigits;
      LastIs(host, ':', digits);
      assert host + ":" + digits == host + [':'] + digits;
      assert (host + [':'] + digits)[..|host|] == host;
    }
  }

  /** What is known of a label in front of the base. */
  predicate PlainLabel(name: string) {
    && Lower(name) == name
    && '.' !in name && ':' !in name && '/' !in name && '?' !in name && '#' !in name && '@' !in name
    && '[' !in name && ']' !in name && NoSpace(name)
  }

  lemma PrintedLabel(id: Labels.Uuid)
    ensures PlainLabel(Labels.Print(id)) && Labels.Print(id) != ""
  {
    var name := Labels.Print(id);
    forall k | 0 <= k < |name|
      ensures '0' <= name[k] <= '9' || 'a' <= name[k] <= 'f'
    {
      assert name[k] in name;
    }
    assert Lower(name) == name;
  }

  lemma LowerAppend(a: string, b: string)
    ensures Lower(a + b) == Lower(a) + Lower(b)
  {
  }

  /** The authority of a route URL, taken apart as the server takes it apart. */
  lemma RouteAuthority(site: Site, domain: string, digits: string, name: string)
    requires BaseIs(site.base, domain, digits) && PlainLabel(name) && name != ""
    ensures var host := name + "." + site.base;
            && ServerHostname(host) == name + "." + domain
            && LabelOf(site, name + "." + domain) == Some(name)
  {
    hide NoSpace, AllDigits, LabelOf, ServerHostname;
    var full := name + "." + domain;
    assert full[|full| - 1] == domain[|domain| - 1];
    assert ':' !in full;
    ServerHostnameOf(full, digits);
    assert name + "." + site.base == if digits == "" then full else full + ":" + digits;
    LabelInFront(site, domain, digits, name);
  }

  lemma LabelInFront(site: Site, domain: string, digits: string, name: string)
    requires BaseIs(site.base, domain, digits) && Lower(name) == name
    ensures LabelOf(site, name + "." + domain) == Some(name)
  {
    hide NoSpace, AllDigits, ServerHostname;
    var full := name + "." + domain;
    ServerHostnameOf(domain, digits);
    LowerAppend(name, "." + domain);
    LowerAppend(".", domain);
    assert Lower(".") == ".";
    assert full == name + ("." + domain) && Lower(full) == full;
    assert full[|full| - |"." + domain|..] == "." + domain && full[..|name|] == name;
  }

  lemma DigitsHaveNo(digits: string)
    requires AllDigits(digits)
    ensures ':' !in digits && '/' !in digits && '?' !in digits && '#' !in digits && '@' !in digits && NoSpace(digits)
  {
  }

  /** A request to a route URL is dispatched to its route. */
  lemma DispatchRoute(site: Site, db: Db, id: Labels.Uuid)
    requires SiteOk(site)
    ensures Dispatch(site, db, Labels.Print(id) + "." + site.base) == RouteByLabel(db, Labels.Print(id))
  {
    hide PlainName, NoSpace, AllDigits, LabelOf, ServerHostname, Labels.Print, RouteByLabel, TrimSuffix;
    var domain: string, digits: string :| BaseIs(site.base, domain, digits);
    PrintedLabel(id);
    RouteAuthority(site, domain, digits, Labels.Print(id));
  }

  // ----- route URLs lead back to their targets ----------------------------------------------

  predicate PlainPart(path: string, query: string) {
    PlainPath(path) && '#' !in query && NoSpace(path) && NoSpace(query)
  }

  lemma NoSpaceAppend(a: string, b: string)
    requires NoSpace(a) && NoSpace(b)
    ensures NoSpace(a + b)
  {
  }

  /** What is printed for a web origin, a path and a query reads back. */
  lemma PrintReadable(scheme: string, host: string, path: string, query: string)
    requires IsWeb(scheme) && PlainHost(host) && PlainPart(path, query)
    ensures Readable(Url(scheme, host, path, query))
  {
    hide PortAllowed, NoSpace, Print;
    WebScheme(scheme);
    PrintHasNoSpace(scheme, host, path, query);
  }

  lemma PrintHasNoSpace(scheme: string, host: string, path: string, query: string)
    requires IsWeb(scheme) && NoSpace(host) && PlainPart(path, query)
    ensures NoSpace(Print(Url(scheme, host, path, query)))
  {
    hide IsSpace;
    WebScheme(scheme);
    hide IsWeb, NoSpace, PlainScheme, PlainPath;
    NoSpaceLiterals();
    NoSpaceAppend(scheme, "://");
    NoSpaceAppend(scheme + "://", host);
    NoSpaceAppend(scheme + "://" + host, path);
    NoSpaceAppend("?", query);
    NoSpaceAppend(scheme + "://" + host + path, QuerySuffix(query));
    assert Print(Url(scheme, host, path, query)) == scheme + "://" + host + path + QuerySuffix(query);
  }

  lemma NoSpaceLiterals()
    ensures NoSpace("://") && NoSpace("?") && NoSpace("") && NoSpace(":") && NoSpace(".")
  {
  }

  lemma WebScheme(scheme: string)
    requires IsWeb(scheme)
    ensures PlainScheme(scheme) && NoSpace(scheme) && Lower(scheme) == scheme && scheme != ""
  {
    if scheme == "http" {
      assert Lower("http") == "http";
    } else {
      assert Lower("https") == "https";
    }
  }

  lemma RouteHostPlain(site: Site, id: Labels.Uuid)
    requires SiteOk(site)
    ensures var host := Labels.Print(id) + "." + site.base; PlainHost(host) && NoSpace(host)
  {
    hide Labels.Print, PlainHost, PlainLabel, NoSpace, PlainName, AllDigits;
    var domain: string, digits: string :| BaseIs(site.base, domain, digits);
    PrintedLabel(id);
    var name := Labels.Print(id) + "." + domain;
    NamePlain(Labels.Print(id), domain);
    if digits == "" {
      BareHost(name);
      assert Labels.Print(id) + "." + site.base == name;
      NameHostPlain(name);
    } else {
      PortPlain(name, digits);
      assert Labels.Print(id) + "." + site.base == name + ":" + digits;
    }
  }

  predicate HostChars(host: string) {
    '/' !in host && '?' !in host && '#' !in host && '@' !in host && '[' !in host && ']' !in host && NoSpace(host)
  }

  lemma NamePlain(name: string, domain: string)
    requires PlainLabel(name) && PlainName(domain)
    ensures HostChars(name + "." + domain) && ':' !in name + "." + domain
  {
    hide NoSpace;
    NoSpaceLiterals();
    NoSpaceAppend(name, ".");
    NoSpaceAppend(name + ".", domain);
  }

  lemma NameHostPlain(name: string)
    requires HostChars(name) && PortAllowed(name)
    ensures PlainHost(name) && NoSpace(name)
  {
  }

  lemma PortPlain(name: string, digits: string)
    requires HostChars(name) && digits != "" && AllDigits(digits)
    ensures PlainHost(name + ":" + digits) && NoSpace(name + ":" + digits)
  {
    DigitsHaveNo(digits);
    hide NoSpace, AllDigits, PortAllowed;
    NoSpaceLiterals();
    NoSpaceAppend(name, ":");
    NoSpaceAppend(name + ":", digits);
    PortAllowedAfter(name, digits);
    assert name + ":" + digits == name + [':'] + digits;
  }

  /** A route URL followed by a browser: it reads back as itself. */
  lemma RouteURLReads(site: Site, id: Labels.Uuid, path: string, query: string, fragment: string)
    requires SiteOk(site) && PlainPart(path, query)
    ensures var u := RouteAt(site, id, path, query);
            && RouteURL(site, id, path, query) == Print(u)
            && ParseRef(Print(u) + FragmentSuffix(fragment)) == Some(RefOf(u, fragment))
            && Readable(u)
  {
    hide Labels.Print, PlainHost, NoSpace, ParseRef, BaseIs;
    var host := Labels.Print(id) + "." + site.base;
    RouteHostPlain(site, id);
    PrintReadable(site.scheme, host, path, query);
    ParsePrinted(RouteAt(site, id, path, query), fragment);
    assert site.scheme + "://" + Labels.Print(id) + "." + site.base + path == site.scheme + "://" + host + path;
  }

  /** A host as a URL can hold it: nothing an authority is split at, no colon. */
  predicate PlainHostname(host: string) {
    HostText(host) && ':' !in host && NoBrackets(host)
  }

  predicate NoBrackets(host: string) {
    '[' !in host && ']' !in host
  }

  lemma OriginAuthority(o: Origin)
    requires IsWeb(o.scheme) && PlainHostname(o.host)
    ensures var h := HostWithPort(o.host, o.port, o.scheme);
            PlainHost(h) && NoSpace(h) && Hostname(h) == o.host && PortNumber(h, o.scheme) == o.port
  {
    hide PortAllowed, Hostname, PortNumber, HostText, HostWithPort;
    HostWithPortReadsBack(o.host, o.port, o.scheme);
    AuthorityText(o);
  }

  lemma AuthorityText(o: Origin)
    requires HostText(o.host)
    ensures var h := HostWithPort(o.host, o.port, o.scheme); HostText(h) && NoSpace(h)
  {
    hide IsSpace, Itoa, AllDigits;
    var digits := Itoa(o.port);
    DigitsHaveNo(digits);
    BracketsHaveNoSpace();
    hide NoSpace;
    NoSpaceAppend(o.host, ":");
    NoSpaceAppend(o.host + ":", digits);
    NoSpaceAppend("[", o.host);
    NoSpaceAppend("[" + o.host, "]:");
    NoSpaceAppend("[" + o.host + "]:", digits);
  }

  lemma BracketsHaveNoSpace()
    ensures NoSpace(":") && NoSpace("[") && NoSpace("]:")
  {
  }

  /** What the guard makes of `forward`'s target: the authority is read as it was printed. */
  lemma ForwardTyped(g: Guard.Config, o: Origin, path: string, query: string)
    requires IsWeb(o.scheme) && HostText(o.host) && PlainPart(path, query)
    ensures var h := HostWithPort(o.host, o.port, o.scheme);
            Normalize(g, ForwardTarget(o, path, query))
            == if PortAllowed(h) then NormalizeParts(g, o.scheme, Hostname(h), PortNumber(h, o.scheme), path, query) else None
  {
    hide Hostname, PortNumber, HostWithPort, Normalize, NormalizeParts, HostText, PortAllowed, NoSpace;
    var h := HostWithPort(o.host, o.port, o.scheme);
    AuthorityText(o);
    WebScheme(o.scheme);
    PrintHasNoSpace(o.scheme, h, path, query);
    NormalizeTyped(g, Url(o.scheme, h, path, query));
  }

  /** What `forward` asks the guard about an origin's path and query. */
  lemma ForwardNormalizes(g: Guard.Config, o: Origin, path: string, query: string)
    requires IsWeb(o.scheme) && PlainHostname(o.host) && PlainPart(path, query)
    ensures Normalize(g, ForwardTarget(o, path, query)) == NormalizeParts(g, o.scheme, o.host, o.port, path, query)
  {
    hide Hostname, PortNumber, HostWithPort, Normalize, NormalizeParts, ForwardTarget, PlainPart, HostText, PortAllowed, NoSpace;
    ForwardTyped(g, o, path, query);
    HostWithPortReadsBack(o.host, o.port, o.scheme);
  }

  lemma RequestPathPlain(path: string, query: string)
    requires PlainPart(path, query)
    ensures PlainPart(RequestPath(path), query) && RequestPath(path) != ""
  {
  }

  /** A request for a path of a route is what `forward` asks the guard about, unless the proxy answers it itself. */
  lemma ServeForwards(site: Site, g: Guard.Config, db: Db, id: Labels.Uuid, path: string, query: string)
    requires SiteOk(site) && RouteByLabel(db, Labels.Print(id)).Some?
    ensures var o := RouteByLabel(db, Labels.Print(id)).value.origin;
            Serve(site, g, db, RouteAt(site, id, path, query))
            == if Reserved(RequestPath(path)) then None else Normalize(g, ForwardTarget(o, RequestPath(path), query))
  {
    hide Dispatch, Reserved, RouteByLabel, Labels.Print, Normalize, ForwardTarget, BaseIs;
    DispatchRoute(site, db, id);
  }

  /** There are five paths of a route the proxy answers itself, and no others. */
  lemma AnswersFivePaths(site: Site, g: Guard.Config, db: Db, id: Labels.Uuid, path: string, query: string)
    requires SiteOk(site) && RouteByLabel(db, Labels.Print(id)).Some? && path != ""
    ensures var o := RouteByLabel(db, Labels.Print(id)).value.origin; var served := Serve(site, g, db, RouteAt(site, id, path, query));
            if path in {"/__tvpn/runtime.js", "/__tvpn/resolve", "/__tvpn/cookie", "/__tvpn/mux", "/__tvpn/ws"} then served == None
            else served == Normalize(g, o.scheme + "://" + HostWithPort(o.host, o.port, o.scheme) + path + QuerySuffix(query))
  {
    hide Serve, RouteByLabel, Labels.Print, Normalize, HostWithPort, SiteOk;
    ServeForwards(site, g, db, id, path, query);
  }

  /** A request for a path of a route is forwarded to the guard-normalised target with that path on the route's origin. */
  lemma ServeRoute(site: Site, g: Guard.Config, db: Db, id: Labels.Uuid, path: string, query: string)
    requires SiteOk(site) && PlainPart(path, query)
    requires RouteByLabel(db, Labels.Print(id)).Some?
    requires var o := RouteByLabel(db, Labels.Print(id)).value.origin; IsWeb(o.scheme) && PlainHostname(o.host)
    ensures var o := RouteByLabel(db, Labels.Print(id)).value.origin;
            Serve(site, g, db, RouteAt(site, id, path, query))
            == if Reserved(RequestPath(path)) then None
               else NormalizeParts(g, o.scheme, o.host, o.port, RequestPath(path), query)
  {
    hide Serve, Reserved, RouteByLabel, Labels.Print, NormalizeParts, Normalize, ForwardTarget, PlainPart, PlainHostname, SiteOk;
    ServeForwards(site, g, db, id, path, query);
    RequestPathPlain(path, query);
    ForwardNormalizes(g, RouteByLabel(db, Labels.Print(id)).value.origin, RequestPath(path), query);
  }

  // ----- references in pages ----------------------------------------------------------------

  /** References `rewriteURL` returns as they are. */
  predicate Untouched(raw: string) {
    var low := Lower(raw);
    raw == "" || raw[0] == '#'
    || "data:" <= low || "blob:" <= low || "javascript:" <= low || "mailto:" <= low || "tel:" <= low
  }

  predicate SameOrigin(a: Url, b: Url) {
    Lower(a.scheme) == Lower(b.scheme) && Lower(a.host) == Lower(b.host)
  }

  datatype Rewritten = Rewritten(db: Db, value: string)

  const BLANK := "about:blank"

  function RewriteURL(site: Site, db: Db, route: Route, base: Url, text: string, spare: Labels.Uuid): Rewritten {
    var raw := TrimSpace(text);
    if Untouched(raw) then Rewritten(db, raw)
    else
      match ParseRef(raw)
      case None => Rewritten(db, BLANK)
      case Some(ref) => RewriteResolved(site, db, route, base, ResolveReference(base, ref), spare)
  }

  function RewriteResolved(site: Site, db: Db, route: Route, base: Url, r: Resolved, spare: Labels.Uuid): Rewritten {
    var u := r.url;
    if !IsWeb(u.scheme) then Rewritten(db, BLANK)
    else if SameOrigin(u, base) then Rewritten(db, u.path + QuerySuffix(u.query) + FragmentSuffix(r.fragment))
    else
      match ResolveRoute(db, route.context, route.user, OriginOf(u), spare)
      case None => Rewritten(db, BLANK)
      case Some((db', id)) => Rewritten(db', RouteURL(site, id, u.path, u.query) + FragmentSuffix(r.fragment))
  }

  /** A text that starts an authority rather than a path. */
  predicate DoubleSlash(s: string) {
    |s| >= 2 && s[0] == '/' && s[1] == '/'
  }

  function StripSlashes(s: string): string {
    if s != "" && s[0] == '/' then StripSlashes(s[1..]) else s
  }

  /** The URL a browser showing `page` requests for a reference. Any number of leading slashes beyond one starts an
      authority, which must not be empty. */
  function BrowserResolve(page: Url, value: string): Option<Url> {
    match ParseRef(if DoubleSlash(value) then "//" + StripSlashes(value) else value)
    case None => None
    case Some(ref) =>
      if ref.rooted && ref.host == "" then None
      else
        var u := ResolveReference(page, ref).url;
        Some(u.(path := RequestPath(u.path)))
  }

  /** A host below the proxy domain, at its port: the browser asks the proxy. */
  predicate OnProxy(site: Site, u: Url) {
    && u.scheme == site.scheme
    && HasSuffix(TrimSuffix(Lower(Hostname(u.host)), "."), "." + Lower(ServerHostname(site.base)))
    && PortNumber(u.host, u.scheme) == PortNumber(site.base, site.scheme)
  }

  /** What comes of following a reference: no upstream is asked, the browser leaves the proxy, or a target is fetched. */
  datatype Visit = Nowhere | Elsewhere(url: Url) | Fetched(target: Url)

  function VisitOf(target: Option<Url>): Visit {
    match target case None => Nowhere case Some(t) => Fetched(t)
  }

  /** Whom the browser asks for a URL, and what comes of it. */
  function Asked(site: Site, g: Guard.Config, db: Db, u: Url): Visit {
    if u.host == "" then Nowhere
    else if !OnProxy(site, u) then Elsewhere(u)
    else VisitOf(Serve(site, g, db, u))
  }

  /** Where following a reference on a proxied page ends up. */
  function Reached(site: Site, g: Guard.Config, db: Db, page: Url, value: string): Visit {
    match BrowserResolve(page, value)
    case None => Nowhere
    case Some(u) => Asked(site, g, db, u)
  }

  lemma RouteIsOnProxy(site: Site, id: Labels.Uuid, path: string, query: string)
    requires SiteOk(site)
    ensures OnProxy(site, RouteAt(site, id, path, query)) && RouteAt(site, id, path, query).host != ""
  {
    hide Labels.Print, Hostname, PortNumber, PlainName, PlainLabel, AllDigits, ServerHostname, TrimSuffix, HasSuffix;
    var domain: string, digits: string :| BaseIs(site.base, domain, digits);
    var front := Labels.Print(id);
    var name := front + "." + domain;
    PrintedLabel(id);
    NamePlain(front, domain);
    HostnameOf(name, digits);
    SamePortAsBase(domain, name, digits, site.scheme);
    assert front + "." + site.base == if digits == "" then name else name + ":" + digits;
    BelowBase(site, domain, digits, front);
  }

  lemma BelowBase(site: Site, domain: string, digits: string, name: string)
    requires BaseIs(site.base, domain, digits) && PlainLabel(name)
    ensures var full := name + "." + domain;
            HasSuffix(TrimSuffix(Lower(full), "."), "." + Lower(ServerHostname(site.base)))
  {
    hide AllDigits, NoSpace, ServerHostname;
    var full := name + "." + domain;
    ServerHostnameOf(domain, digits);
    LowerAppend(name, "." + domain);
    LowerAppend(".", domain);
    assert Lower(".") == ".";
    assert full == name + ("." + domain) && Lower(full) == full;
    assert full[|full| - 1] == domain[|domain| - 1];
    assert full[|full| - 1..] == [full[|full| - 1]];
    assert full[|full| - |"." + domain|..] == "." + domain;
  }

  lemma SamePortAsBase(domain: string, name: string, digits: string, scheme: string)
    requires ':' !in domain && NoBrackets(domain) && ':' !in name && NoBrackets(name) && AllDigits(digits)
    ensures PortNumber(if digits == "" then name else name + ":" + digits, scheme)
            == PortNumber(if digits == "" then domain else domain + ":" + digits, scheme)
  {
    hide AllDigits, Hostname;
    if digits == "" {
      BareHost(name);
      BareHost(domain);
    } else {
      SplitHostPort(name, digits);
      SplitHostPort(domain, digits);
      assert name + ":" + digits == name + [':'] + digits && domain + ":" + digits == domain + [':'] + digits;
    }
  }

  /** The target the guard makes of a resolved reference. */
  function Target(g: Guard.Config, r: Resolved): Option<Url> {
    if r.user || !IsWeb(r.url.scheme) then None
    else NormalizeParts(g, r.url.scheme, Hostname(r.url.host), PortNumber(r.url.host, r.url.scheme), r.url.path, r.url.query)
  }

  lemma TargetIsNormalize(g: Guard.Config, r: Resolved)
    requires Readable(r.url) && !r.user
    ensures Target(g, r) == Normalize(g, Print(r.url))
  {
    hide NormalizeParts, Normalize, Print, Plain, NoSpace;
    NormalizePrinted(g, r.url);
  }

  /** When a same-origin reference printed as a bare path still means what it meant: a path from the root that does not
      look like an authority, or an empty path on a page that is itself at the root. */
  predicate Survives(base: Url, u: Url) {
    if u.path == "" then RequestPath(base.path) == "/" && (u.query != "" || base.query == "")
    else !DoubleSlash(u.path)
  }

  lemma NoScheme(s: string)
    requires s == "" || s[0] == '/' || s[0] == '?'
    ensures SplitScheme(s) == Some(("", s))
  {
    assert SchemeLength(s) == 0;
  }

  lemma ParseLocal(path: string, query: string, fragment: string)
    requires PlainPath(path) && '#' !in query
    ensures ParseRef(path + QuerySuffix(query) + FragmentSuffix(fragment)) == SplitPath(path, "", query, fragment)
  {
    hide SplitPath, Cut, SplitScheme, QuerySuffix, FragmentSuffix;
    LocalCuts(path, query, fragment);
    LocalHasNoScheme(path, query);
  }

  lemma LocalCuts(path: string, query: string, fragment: string)
    requires PlainPath(path) && '#' !in query
    ensures var whole := path + QuerySuffix(query);
            Cut(whole + FragmentSuffix(fragment), '#') == (whole, fragment) && Cut(whole, '?') == (path, query)
  {
    hide Cut;
    assert '#' !in path + QuerySuffix(query);
    assert QuerySuffix(query) == if query == "" then "" else ['?'] + query;
    assert FragmentSuffix(fragment) == if fragment == "" then "" else ['#'] + fragment;
    hide QuerySuffix, FragmentSuffix;
    CutSuffix(path + QuerySuffix(query), '#', fragment);
    CutSuffix(path, '?', query);
  }

  lemma LocalHasNoScheme(path: string, query: string)
    requires PlainPath(path)
    ensures SplitScheme(path + QuerySuffix(query)) == Some(("", path + QuerySuffix(query)))
  {
    hide SplitScheme;
    NoScheme(path + QuerySuffix(query));
  }

  lemma NotAnAuthority(path: string, query: string, fragment: string)
    requires !DoubleSlash(path) && (path == "" || path[0] == '/')
    ensures !DoubleSlash(path + QuerySuffix(query) + FragmentSuffix(fragment))
  {
    var suffix := QuerySuffix(query) + FragmentSuffix(fragment);
    var value := path + QuerySuffix(query) + FragmentSuffix(fragment);
    Suffix(query, fragment);
    hide QuerySuffix, FragmentSuffix;
    assert value == path + suffix;
    assert |path| >= 2 ==> value[0] == path[0] && value[1] == path[1];
    assert |path| == 1 && suffix != "" ==> value[1] == suffix[0];
  }

  lemma LocalReference(page: Url, path: string, query: string, fragment: string)
    requires PlainPath(path) && '#' !in query && !DoubleSlash(path) && DotFree(path)
    requires page.path != "" && page.path[0] == '/' && DotFree(page.path)
    ensures BrowserResolve(page, path + QuerySuffix(query) + FragmentSuffix(fragment))
            == Some(if path == "" then page.(query := if query == "" then page.query else query)
                    else page.(path := path, query := query))
  {
    hide ParseRef, DotFree, RemoveDots, StripSlashes;
    ParseLocal(path, query, fragment);
    var value := path + QuerySuffix(query) + FragmentSuffix(fragment);
    NotAnAuthority(path, query, fragment);
    if path == "" {
      RemoveDotsOfDotFree(page.path);
    } else {
      RemoveDotsOfDotFree(path);
    }
  }

  /** A route URL, with or without a fragment, takes the browser to the route. */
  lemma RouteReference(site: Site, page: Url, id: Labels.Uuid, path: string, query: string, fragment: string)
    requires SiteOk(site) && PlainPart(path, query) && DotFree(path)
    ensures BrowserResolve(page, RouteURL(site, id, path, query) + FragmentSuffix(fragment))
            == Some(RouteAt(site, id, RequestPath(path), query))
  {
    hide ParseRef, DotFree, RemoveDots, StripSlashes, Labels.Print, Plain, NoSpace, BaseIs;
    RouteURLReads(site, id, path, query, fragment);
    WebScheme(site.scheme);
    var value := RouteURL(site, id, path, query) + FragmentSuffix(fragment);
    assert value[0] == site.scheme[0];
    if path == "" {
      assert ResolvePath(path, "") == "";
    } else {
      RemoveDotsOfDotFree(path);
    }
  }

  // A bare path that looks like an authority.

  lemma {:induction false} StripAppend(a: string, b: string)
    requires b == "" || b[0] != '/'
    ensures StripSlashes(a + b) == StripSlashes(a) + b
  {
    if a != "" && a[0] == '/' {
      assert (a + b)[1..] == a[1..] + b;
      StripAppend(a[1..], b);
    } else if a != "" {
      assert (a + b)[0] == a[0];
    } else {
      assert a + b == b;
    }
  }

  lemma {:induction false} StripIsSuffix(a: string) returns (n: nat)
    ensures n <= |a| && StripSlashes(a) == a[n..]
    ensures StripSlashes(a) == "" || StripSlashes(a)[0] != '/'
    ensures DoubleSlash(a) ==> n >= 2
  {
    if a != "" && a[0] == '/' {
      var m := StripIsSuffix(a[1..]);
      n := m + 1;
      assert a[1..][m..] == a[n..];
      assert DoubleSlash(a) ==> a[1..][0] == '/';
    } else {
      n := 0;
    }
  }

  lemma {:induction false} DotFreeSuffix(path: string, i: nat)
    requires DotFree(path) && i < |path| && path[i] == '/'
    ensures DotFree(path[i..])
  {
    hide DotFree, IsDots;
    var k := Last(path, '/').value;
    var front, segment := path[..k], path[k + 1..];
    assert path == front + "/" + segment;
    DotFreeSnoc(front, segment);
    if i == k {
      assert path[i..] == "" + "/" + segment;
      DotFreeSnoc("", segment);
      Empty();
    } else {
      assert i < k;
      DotFreeSuffix(front, i);
      assert path[i..] == front[i..] + "/" + segment;
      DotFreeSnoc(front[i..], segment);
    }
  }

  lemma ParseAuthority(rest: string, query: string, fragment: string)
    requires rest == "" || rest[0] != '/'
    requires '?' !in rest && '#' !in rest && '#' !in query
    ensures var (i, s) := (First(rest, '/'), "//" + rest + QuerySuffix(query) + FragmentSuffix(fragment));
            ParseRef(s) == match SplitAuthority(rest[..i])
                           case None => None
                           case Some((user, host)) => Some(Ref("", false, true, user, host, rest[i..], query, fragment))
  {
    hide ParseRef, SplitAuthority;
    var front := "//" + rest;
    ParseLocal(front, query, fragment);
    assert front[2..] == rest;
  }

  /** The path after the authority, resolved. */
  lemma TailResolves(path: string, query: string, i: nat)
    requires PlainPart(path, query) && DotFree(path) && 2 <= i <= |path| && (i < |path| ==> path[i] == '/')
    ensures var p := RequestPath(ResolvePath(path[i..], "")); |p| < |path| && PlainPart(p, query)
  {
    hide DotFree, NoSpace;
    if i < |path| {
      DotFreeSuffix(path, i);
      RemoveDotsOfDotFree(path[i..]);
      SuffixPlain(path, query, i);
    } else {
      assert path[i..] == "" && ResolvePath("", "") == "";
      OnlyRoot(query);
    }
  }

  /** The URL a browser reads off a bare path with two or more leading slashes: the host they name, if any. */
  function Named(page: Url, path: string, query: string): Option<Url> {
    var rest := StripSlashes(path);
    var i := First(rest, '/');
    match SplitAuthority(rest[..i])
    case None => None
    case Some((_, host)) =>
      if host == "" then None else Some(Url(page.scheme, host, RequestPath(ResolvePath(rest[i..], "")), query))
  }

  /** What the browser makes of it: another host, or nothing; in any case a shorter path. */
  lemma DoubledSlash(page: Url, path: string, query: string, fragment: string)
    requires PlainPart(path, query) && DoubleSlash(path) && DotFree(path)
    ensures var r := BrowserResolve(page, path + QuerySuffix(query) + FragmentSuffix(fragment));
            r == Named(page, path, query) && (r.Some? ==> |r.value.path| < |path| && PlainPart(r.value.path, r.value.query))
  {
    hide ParseRef, DotFree, ResolvePath, StripSlashes, SplitAuthority, PlainPart, QuerySuffix, FragmentSuffix;
    var value := path + QuerySuffix(query) + FragmentSuffix(fragment);
    assert value[0] == path[0] && value[1] == path[1];
    var n := StripIsSuffix(path);
    var rest := path[n..];
    StripValue(path, query, fragment);
    RestPlain(path, query, n);
    ParseAuthority(rest, query, fragment);
    var i := First(rest, '/');
    assert rest[i..] == path[n + i..];
    TailResolves(path, query, n + i);
  }

  lemma StripValue(path: string, query: string, fragment: string)
    ensures "//" + StripSlashes(path + QuerySuffix(query) + FragmentSuffix(fragment))
            == "//" + StripSlashes(path) + QuerySuffix(query) + FragmentSuffix(fragment)
  {
    Suffix(query, fragment);
    hide StripSlashes, QuerySuffix, FragmentSuffix;
    StripTwo(path, QuerySuffix(query), FragmentSuffix(fragment));
    Regroup("//", StripSlashes(path), QuerySuffix(query), FragmentSuffix(fragment));
  }

  lemma StripTwo(path: string, a: string, b: string)
    requires a + b != "" ==> (a + b)[0] != '/'
    ensures StripSlashes(path + a + b) == StripSlashes(path) + a + b
  {
    hide StripSlashes;
    StripAppend(path, a + b);
    assert path + a + b == path + (a + b);
    assert StripSlashes(path) + a + b == StripSlashes(path) + (a + b);
  }

  lemma Regroup(a: string, b: string, c: string, d: string)
    ensures a + (b + c + d) == a + b + c + d
  {
  }

  lemma Suffix(query: string, fragment: string)
    ensures var suffix := QuerySuffix(query) + FragmentSuffix(fragment); suffix != "" ==> suffix[0] == '?' || suffix[0] == '#'
  {
  }

  lemma RestPlain(path: string, query: string, n: nat)
    requires PlainPart(path, query) && n <= |path|
    ensures '?' !in path[n..] && '#' !in path[n..] && '#' !in query
  {
    assert forall c :: c in path[n..] ==> c in path;
  }

  lemma SuffixPlain(path: string, query: string, i: nat)
    requires PlainPart(path, query) && i <= |path| && (i < |path| ==> path[i] == '/')
    ensures PlainPart(path[i..], query)
  {
    assert forall c :: c in path[i..] ==> c in path;
  }

  lemma OnlyRoot(query: string)
    requires '#' !in query && NoSpace(query)
    ensures PlainPart("/", query)
  {
  }

  // ----- rewriting preserves meaning --------------------------------------------------------

  /** Every route is filed under a web origin, and no host holds what URLs are split at: all that parsing a reference
      leaves. */
  ghost predicate PlainRoutes(db: Db) {
    forall id :: id in db.routes ==> IsWeb(db.routes[id].origin.scheme) && HostText(db.routes[id].origin.host)
  }

  /** `base` is the target the guard makes of a page served on `route`. */
  ghost predicate OnPage(g: Guard.Config, db: Db, route: Route, base: Url) {
    && RouteByLabel(db, Labels.Print(route.id)) == Some(route)
    && Normalize(g, ForwardTarget(route.origin, base.path, base.query)) == Some(base)
    && PlainPart(base.path, base.query) && DotFree(base.path) && !Reserved(RequestPath(base.path))
  }

  function PageURL(site: Site, route: Route, base: Url): Url {
    RouteAt(site, route.id, RequestPath(base.path), base.query)
  }

  ghost predicate Setting(site: Site, g: Guard.Config, db: Db, route: Route, base: Url) {
    SiteOk(site) && IdnaOk(g.idna) && Inv(db) && PlainRoutes(db) && OnPage(g, db, route, base)
  }

  lemma RouteIsStored(db: Db, name: string)
    requires RouteByLabel(db, name).Some?
    ensures var r := RouteByLabel(db, name).value;
            && r.id in db.routes && db.routes[r.id] == RouteKey(r.context, r.origin)
            && r.context in db.contexts && Open(db, r.context, r.user)
            && r.egress == db.contexts[r.context].egress && r.compatible == db.contexts[r.context].compatible
  {
    hide Labels.Parse;
  }

  lemma NormalizeSetsPath(g: Guard.Config, o: Origin, path: string, query: string, path': string, query': string)
    ensures match NormalizeParts(g, o.scheme, o.host, o.port, path, query)
            case None => NormalizeParts(g, o.scheme, o.host, o.port, path', query') == None
            case Some(t) => t.path == path && t.query == query
                            && NormalizeParts(g, o.scheme, o.host, o.port, path', query')
                               == Some(t.(path := path', query := query'))
  {
    hide Canonical, IsControlPlane, HostWithPort;
  }

  /** The origin the guard reads when a page of `o` is asked for: `o` itself, but for a misread address. */
  function ReadOrigin(o: Origin): Origin {
    var h := HostWithPort(o.host, o.port, o.scheme);
    Origin(o.scheme, Hostname(h), PortNumber(h, o.scheme))
  }

  lemma PageOrigin(g: Guard.Config, db: Db, route: Route, base: Url)
    requires PlainRoutes(db) && OnPage(g, db, route, base)
    ensures var o := ReadOrigin(route.origin);
            && IsWeb(o.scheme) && HostText(route.origin.host)
            && NormalizeParts(g, o.scheme, o.host, o.port, base.path, base.query) == Some(base)
  {
    hide RouteByLabel, Labels.Print, HostText, DotFree, Normalize, NormalizeParts, Hostname, PortNumber, PortAllowed, HostWithPort,
         PlainPart, Reserved, ForwardTarget;
    RouteIsStored(db, Labels.Print(route.id));
    ForwardTyped(g, route.origin, base.path, base.query);
  }

  /** A reference to the page's own authority, in any spelling, means a target on the page's own route. */
  lemma SameOriginTarget(g: Guard.Config, db: Db, route: Route, base: Url, r: Resolved)
    requires IdnaOk(g.idna) && PlainRoutes(db) && OnPage(g, db, route, base)
    requires !r.user && IsWeb(r.url.scheme) && SameOrigin(r.url, base)
    ensures Target(g, r) == Some(base.(path := r.url.path, query := r.url.query))
  {
    hide Hostname, PortNumber, Port, IsControlPlane, HostWithPort, RouteByLabel, PlainPart, DotFree, Reserved, Labels.Print, HostText,
         Normalize, PlainRoutes, OnPage, ReadOrigin;
    PageOrigin(g, db, route, base);
    var o, u := ReadOrigin(route.origin), r.url;
    NormalizedParts(g, o.scheme, o.host, o.port, base.path, base.query);
    var host := g.idna[Canonical(o.host)];
    assert PlainName(host);
    WebScheme(u.scheme);
    WebScheme(base.scheme);
    HostnameLower(u.host);
    HostnameLower(base.host);
    assert Lower(Hostname(u.host)) == host;
    assert Canonical(Hostname(u.host)) == host;
    SamePort(u.host, base.host, base.scheme);
  }

  lemma SamePort(a: string, b: string, scheme: string)
    requires Lower(a) == Lower(b)
    ensures PortNumber(a, scheme) == PortNumber(b, scheme)
  {
    HostnameLower(a);
    HostnameLower(b);
  }

  lemma ServeKeepsPath(site: Site, g: Guard.Config, db: Db, u: Url)
    requires PlainRoutes(db) && PlainPart(u.path, u.query) && Serve(site, g, db, u).Some?
    ensures Serve(site, g, db, u).value.path == RequestPath(u.path)
  {
    hide RouteByLabel, LabelOf, Reserved, Normalize, NormalizeParts, ForwardTarget, PlainPart, HostText, ServerHostname,
         Hostname, PortNumber, PortAllowed, HostWithPort;
    var route := Dispatch(site, db, u.host).value;
    var name := LabelOf(site, ServerHostname(u.host)).value;
    RouteIsStored(db, name);
    RequestPathPlain(u.path, u.query);
    var o := route.origin;
    ForwardTyped(g, o, RequestPath(u.path), u.query);
    var h := HostWithPort(o.host, o.port, o.scheme);
    NormalizeSetsPath(g, Origin(o.scheme, Hostname(h), PortNumber(h, o.scheme)), RequestPath(u.path), u.query, "", "");
  }

  /** What a request for a path of the page's own route fetches. */
  lemma AskedOnPage(site: Site, g: Guard.Config, db: Db, route: Route, base: Url, path: string, query: string)
    requires Setting(site, g, db, route, base) && PlainPart(path, query)
    ensures Asked(site, g, db, RouteAt(site, route.id, path, query))
            == if Reserved(RequestPath(path)) then Nowhere else Fetched(base.(path := RequestPath(path), query := query))
  {
    hide RouteByLabel, Serve, Reserved, NormalizeParts, PlainPart, HostText, DotFree, Labels.Print, Inv, SiteOk, IdnaOk, OnProxy,
         Normalize, ForwardTarget, HostWithPort, Hostname, PortNumber, PortAllowed, PlainRoutes;
    RouteIsOnProxy(site, route.id, path, query);
    PageOrigin(g, db, route, base);
    ServeForwards(site, g, db, route.id, path, query);
    RequestPathPlain(path, query);
    ForwardTyped(g, route.origin, base.path, base.query);
    ForwardTyped(g, route.origin, RequestPath(path), query);
    NormalizeSetsPath(g, ReadOrigin(route.origin), base.path, base.query, RequestPath(path), query);
  }

  lemma RequestPathRooted(path: string)
    requires PlainPath(path) && DotFree(path)
    ensures RequestPath(path) != "" && RequestPath(path)[0] == '/' && DotFree(RequestPath(path))
  {
    if path == "" {
      Empty();
      DotFreeSnoc("", "");
      assert "" + "/" + "" == "/";
    }
  }

  /** A URL the browser reads off a bare path is nobody's, or lies on the proxy but belongs to no route, to a path the
      proxy answers itself, or to a target the guard refuses. */
  predicate Unserved(site: Site, g: Guard.Config, db: Db, named: Option<Url>) {
    match named
    case None => true
    case Some(w) =>
      OnProxy(site, w)
      && match Dispatch(site, db, w.host)
         case None => true
         case Some(route) =>
           Reserved(RequestPath(w.path)) || Normalize(g, ForwardTarget(route.origin, RequestPath(w.path), w.query)).None?
  }

  /** The same-origin shortcut: the bare path reaches its target exactly when it survives and is not reserved. One that
      starts with two slashes leads where the host it names leads, and an empty one to the page itself. */
  lemma SameOriginReached(site: Site, g: Guard.Config, db: Db, route: Route, base: Url, r: Resolved)
    requires Setting(site, g, db, route, base) && SameOrigin(r.url, base)
    requires PlainPart(r.url.path, r.url.query) && DotFree(r.url.path)
    ensures var (u, page) := (r.url, PageURL(site, route, base));
            var reached := Reached(site, g, db, page, u.path + QuerySuffix(u.query) + FragmentSuffix(r.fragment));
            var meant := base.(path := RequestPath(u.path), query := u.query);
            && (reached == Fetched(meant) <==> !Reserved(RequestPath(u.path)) && Survives(base, u))
            && (Survives(base, u) && Reserved(RequestPath(u.path)) ==> reached == Nowhere)
            && (DoubleSlash(u.path) ==> (reached == Nowhere <==> Unserved(site, g, db, Named(page, u.path, u.query))))
            && (u.path == "" ==> reached == Fetched(base.(path := RequestPath(base.path),
                                                          query := if u.query == "" then base.query else u.query)))
  {
    hide RouteByLabel, Asked, NormalizeParts, Normalize, ForwardTarget, DotFree, Labels.Print, Inv, SiteOk, IdnaOk, BrowserResolve,
         NoSpace, Named, SameOrigin, HostText, Dispatch, Unserved;
    var u, page := r.url, PageURL(site, route, base);
    RequestPathRooted(base.path);
    RequestPathPlain(base.path, base.query);
    if DoubleSlash(u.path) {
      DoubledSlash(page, u.path, u.query, r.fragment);
      DoubledSlashMisses(site, g, db, page, u, r.fragment);
      NowhereExactly(site, g, db, page, u.path, u.query);
    } else {
      LocalReference(page, u.path, u.query, r.fragment);
      if u.path == "" {
        var query := if u.query == "" then base.query else u.query;
        AskedOnPage(site, g, db, route, base, RequestPath(base.path), query);
      } else {
        AskedOnPage(site, g, db, route, base, u.path, u.query);
      }
    }
  }

  lemma NowhereExactly(site: Site, g: Guard.Config, db: Db, page: Url, path: string, query: string)
    ensures Unserved(site, g, db, Named(page, path, query))
            <==> match Named(page, path, query) case None => true case Some(w) => Asked(site, g, db, w) == Nowhere
  {
    hide OnProxy, Dispatch, Normalize, ForwardTarget, Reserved, SplitAuthority, StripSlashes, ResolvePath;
  }

  lemma DoubledSlashMisses(site: Site, g: Guard.Config, db: Db, page: Url, u: Url, fragment: string)
    requires PlainRoutes(db) && PlainPart(u.path, u.query) && DoubleSlash(u.path) && DotFree(u.path)
    ensures var reached := Reached(site, g, db, page, u.path + QuerySuffix(u.query) + FragmentSuffix(fragment));
            reached.Fetched? ==> reached.target.path != u.path
  {
    hide Serve, DotFree, BrowserResolve, PlainPart, QuerySuffix, FragmentSuffix, OnProxy;
    DoubledSlash(page, u.path, u.query, fragment);
    var w := BrowserResolve(page, u.path + QuerySuffix(u.query) + FragmentSuffix(fragment));
    if w.Some? && Serve(site, g, db, w.value).Some? {
      ServeKeepsPath(site, g, db, w.value);
    }
  }

  /** The route branch: unless its port is impossible the route is found or made, and its URL leads to what the guard
      makes of the origin it is filed under. */
  lemma RouteReached(site: Site, g: Guard.Config, db: Db, route: Route, base: Url, r: Resolved, spare: Labels.Uuid)
    requires Setting(site, g, db, route, base) && spare !in db.routes
    requires IsWeb(r.url.scheme) && PlainPart(r.url.path, r.url.query) && DotFree(r.url.path)
    ensures match ResolveRoute(db, route.context, route.user, OriginOf(r.url), spare)
            case None => !ValidOrigin(OriginOf(r.url))
            case Some((db', id)) =>
              && ValidOrigin(OriginOf(r.url))
              && Reached(site, g, db', PageURL(site, route, base),
                         RouteURL(site, id, r.url.path, r.url.query) + FragmentSuffix(r.fragment))
                 == if Reserved(RequestPath(r.url.path)) then Nowhere else VisitOf(Forwarded(g, r.url))
  {
    hide RouteByLabel, Serve, OnProxy, HostText, PlainPart, DotFree, Labels.Print, SiteOk, IdnaOk, BrowserResolve, Hostname,
         PortNumber, ForwardTarget, NormalizeParts, Normalize, Reserved, Bijective, ValidOrigin, PlainRoutes;
    var u, page, o := r.url, PageURL(site, route, base), OriginOf(r.url);
    RouteIsStored(db, Labels.Print(route.id));
    if ValidOrigin(o) {
      hide Inv;
      ResolveThenLookUp(db, route.context, route.user, o, spare, spare);
      var (db', id) := ResolveRoute(db, route.context, route.user, o, spare).value;
      RouteReference(site, page, id, u.path, u.query, r.fragment);
      RouteIsOnProxy(site, id, RequestPath(u.path), u.query);
      RequestPathPlain(u.path, u.query);
      ServeForwards(site, g, db', id, RequestPath(u.path), u.query);
    }
  }

  /** The guard's reading of what `forward` prints for a URL's origin, path and query. */
  function Forwarded(g: Guard.Config, u: Url): Option<Url> {
    Normalize(g, ForwardTarget(OriginOf(u), RequestPath(u.path), u.query))
  }

  /** A host with a colon, printed without its brackets at the default port, is read back as another host and port, and
      the guard accepts those. */
  predicate Misread(g: Guard.Config, o: Origin) {
    && ':' in o.host && o.port == DefaultPort(o.scheme) && PortAllowed(o.host)
    && NormalizeParts(g, o.scheme, Hostname(o.host), PortNumber(o.host, o.scheme), "", "").Some?
  }

  /** No host with a colon passes IDNA. */
  lemma ColonIsRefused(g: Guard.Config, scheme: string, host: string, port: nat, path: string, query: string)
    requires IdnaOk(g.idna) && ':' in host
    ensures NormalizeParts(g, scheme, host, port, path, query) == None
  {
    var k :| 0 <= k < |host| && host[k] == ':';
    assert Lower(host)[k] == ':';
    assert TrimSuffix(Lower(host), ".")[k] == ':' by {
      assert HasSuffix(Lower(host), ".") ==> Lower(host)[|host| - 1..][0] == '.';
    }
    assert ':' in Canonical(host);
  }

  /** What the guard makes of a reference without its credentials is what it makes of the forwarded URL, misread
      addresses apart: those it would refuse. */
  lemma ForwardedIsTarget(g: Guard.Config, r: Resolved)
    requires IdnaOk(g.idna) && !r.user && IsWeb(r.url.scheme) && PlainReference(r) && HostText(Hostname(r.url.host))
    ensures if Misread(g, OriginOf(r.url)) then Target(g, r) == None && Forwarded(g, r.url).Some?
            else VisitOf(Forwarded(g, r.url)) == Meant(g, r)
  {
    hide NormalizeParts, Normalize, Hostname, PortNumber, HostText, PortAllowed, HostWithPort, PlainPart, IdnaOk, ForwardTarget;
    var u, o := r.url, OriginOf(r.url);
    RequestPathPlain(u.path, u.query);
    ForwardTyped(g, o, RequestPath(u.path), u.query);
    HostWithPortReadsBack(o.host, o.port, o.scheme);
    NormalizeSetsPath(g, o, u.path, u.query, RequestPath(u.path), u.query);
    if ':' in o.host {
      ColonIsRefused(g, o.scheme, o.host, o.port, u.path, u.query);
      if o.port == DefaultPort(o.scheme) {
        DefaultAuthority(o);
        NormalizeSetsPath(g, Origin(o.scheme, Hostname(o.host), PortNumber(o.host, o.scheme)), "", "", RequestPath(u.path), u.query);
      }
    }
  }

  lemma DefaultAuthority(o: Origin)
    requires IsWeb(o.scheme) && o.port == DefaultPort(o.scheme)
    ensures HostWithPort(o.host, o.port, o.scheme) == o.host
  {
  }

  // ----- the theorem ------------------------------------------------------------------------

  /** The target a resolved reference means on the upstream page, or nothing where the guard refuses it. An empty path is
      the root. */
  function Meant(g: Guard.Config, r: Resolved): Visit {
    match Target(g, r)
    case None => Nowhere
    case Some(t) => Fetched(t.(path := RequestPath(t.path)))
  }

  /** A reference whose host name has no stray brackets, and whose path and query are free of white space and of what
      ends them. */
  predicate PlainReference(r: Resolved) {
    NoBrackets(Hostname(r.url.host)) && PlainPart(r.url.path, r.url.query)
  }

  /** When a rewritten reference comes out as it was meant, refusal included. Credentials are dropped by rewriting and
      refused by the guard, so a reference with them is meant to lead nowhere. */
  predicate KeepsMeaning(site: Site, g: Guard.Config, db: Db, route: Route, base: Url, r: Resolved) {
    var (u, reserved) := (r.url, Reserved(RequestPath(r.url.path)));
    if !IsWeb(u.scheme) then true
    else if SameOrigin(u, base) then
      if Survives(base, u) then r.user <==> reserved
      else r.user && DoubleSlash(u.path) && Unserved(site, g, db, Named(PageURL(site, route, base), u.path, u.query))
    else if Target(g, r.(user := false)).None? then Misread(g, OriginOf(u)) ==> reserved
    else r.user <==> reserved
  }

  /** Rewriting any text at all. What has nothing to fetch is given back as it is; what does not parse, or is not for the
      web, becomes a page of its own. Every other reference, followed on the proxied page, reaches exactly what it meant on
      the upstream page, the guard's refusal included, if and only if
      - on the page's own origin, the bare path printed for it survives, and either its path is not one the proxy answers
        itself or it carries credentials and is; or it carries credentials, and its path starts with two slashes and names
        no host, or one below the proxy domain that serves nothing;
      - on another origin the guard accepts, it has no credentials and its path is not reserved, or it has and it is;
      - on an origin the guard refuses, its address is not misread, or its path is reserved. */
  lemma RewritePreservesTarget(site: Site, g: Guard.Config, db: Db, route: Route, base: Url, text: string,
                               spare: Labels.Uuid)
    requires Setting(site, g, db, route, base) && spare !in db.routes
    requires ForTheWeb(base, TrimSpace(text)) ==> PlainReference(ResolveReference(base, ParseRef(TrimSpace(text)).value))
    ensures var (raw, out) := (TrimSpace(text), RewriteURL(site, db, route, base, text, spare));
            var reached := Reached(site, g, out.db, PageURL(site, route, base), out.value);
            && (StaysAsIs(raw) ==> out == Rewritten(db, raw))
            && (raw == "" || raw[0] == '#' ==> reached == Fetched(base.(path := RequestPath(base.path))))
            && (!StaysAsIs(raw) && !ForTheWeb(base, raw) ==> out == Rewritten(db, "about:blank") && reached == Nowhere)
            && (raw != "" && raw[0] != '#' && ForTheWeb(base, raw) ==>
                  var r := ResolveReference(base, ParseRef(raw).value);
                  reached == Meant(g, r) <==> KeepsMeaning(site, g, db, route, base, r))
  {
    hide Reached, PlainReference, DotFree, PageURL, ParseRef, TrimSpace, Untouched, Setting, RewriteResolved, KeepsMeaning, Meant,
         HostText, StaysAsIs, SchemeText, ResolvePath;
    var raw := TrimSpace(text);
    UntouchedExactly(raw);
    BlankLeadsNowhere(site, g, db, PageURL(site, route, base));
    if raw == "" || raw[0] == '#' {
      StaysAsIsExactly(raw);
      FragmentStaysOnPage(site, g, db, route, base, raw);
    }
    if ForTheWeb(base, raw) && raw != "" && raw[0] != '#' {
      var ref := ParseRef(raw).value;
      if StaysAsIs(raw) {
        WebIsRewritten(base, raw);
      }
      ResolvedPathIsDotFree(ref.path, "");
      ResolvedPathIsDotFree(base.path, ref.path);
      ReferenceHostText(site, g, db, route, base, raw);
      ResolvedPreserved(site, g, db, route, base, ResolveReference(base, ref), spare);
    } else if ParseRef(raw).Some? && !ForTheWeb(base, raw) {
      NotForTheWeb(site, g, db, route, base, ResolveReference(base, ParseRef(raw).value), spare);
    }
  }

  lemma StaysAsIsExactly(raw: string)
    ensures raw == "" || raw[0] == '#' ==> StaysAsIs(raw)
  {
  }

  /** Nothing, and a place on the page, lead to the page's own target. */
  lemma FragmentStaysOnPage(site: Site, g: Guard.Config, db: Db, route: Route, base: Url, raw: string)
    requires Setting(site, g, db, route, base) && (raw == "" || raw[0] == '#')
    ensures Reached(site, g, db, PageURL(site, route, base), raw) == Fetched(base.(path := RequestPath(base.path)))
  {
    hide ParseRef, DotFree, Asked, RouteByLabel, Normalize, ForwardTarget, Labels.Print, Inv, SiteOk, IdnaOk, ResolvePath;
    var page := PageURL(site, route, base);
    EmptyParses(raw);
    RequestPathRooted(base.path);
    RequestPathPlain(base.path, base.query);
    ResolveRooted(page.path);
    AskedOnPage(site, g, db, route, base, page.path, page.query);
  }

  lemma EmptyParses(raw: string)
    requires raw == "" || raw[0] == '#'
    ensures ParseRef(raw) == Some(Ref("", false, false, None, "", "", "", if raw == "" then "" else raw[1..]))
  {
  }

  lemma ResolveRooted(path: string)
    requires DotFree(path) && path != "" && path[0] == '/'
    ensures ResolvePath(path, "") == path
  {
    hide DotFree, RemoveDots;
    RemoveDotsOfDotFree(path);
  }

  /** How a reference for the web is printed: on the page's own origin, in any spelling of it, as path, query and fragment
      alone; on another, as the URL of a route filed for that scheme, host and port in the page's context. */
  lemma RewrittenForm(site: Site, db: Db, route: Route, base: Url, text: string, spare: Labels.Uuid)
    requires !StaysAsIs(TrimSpace(text)) && ForTheWeb(base, TrimSpace(text))
    ensures var r := ResolveReference(base, ParseRef(TrimSpace(text)).value); var u := r.url;
            var out := RewriteURL(site, db, route, base, text, spare);
            var rest := u.path + (if u.query == "" then "" else "?" + u.query) + (if r.fragment == "" then "" else "#" + r.fragment);
            if Lower(u.scheme) == Lower(base.scheme) && Lower(u.host) == Lower(base.host) then out == Rewritten(db, rest)
            else
              var key := RouteKey(route.context, Origin(u.scheme, Hostname(u.host), PortNumber(u.host, u.scheme)));
              if !Open(db, route.context, route.user) || InsertRoute(db, key, spare).None? then out == Rewritten(db, "about:blank")
              else
                var (db', id) := InsertRoute(db, key, spare).value;
                out == Rewritten(db', site.scheme + "://" + Labels.Print(id) + "." + site.base + rest)
  {
    hide StaysAsIs, ParseRef, TrimSpace, ResolvePath, InsertRoute, Labels.Print, Hostname, PortNumber, Untouched;
    UntouchedExactly(TrimSpace(text));
  }

  /** The text parses, and means an http or https URL. */
  predicate ForTheWeb(base: Url, raw: string) {
    ParseRef(raw).Some?
    && var scheme := ResolveReference(base, ParseRef(raw).value).url.scheme; scheme == "http" || scheme == "https"
  }

  /** What a text has before its first colon, in lower case. */
  function SchemeText(raw: string): string {
    if ':' in raw then Lower(raw[..First(raw, ':')]) else ""
  }

  /** References for which there is nothing to fetch: none, a place on the page itself, or one of five schemes. */
  predicate StaysAsIs(raw: string) {
    raw == "" || raw[0] == '#' || SchemeText(raw) in {"data", "blob", "javascript", "mailto", "tel"}
  }

  lemma UntouchedExactly(raw: string)
    ensures Untouched(raw) <==> StaysAsIs(raw)
  {
    hide SchemeText, Lower;
    SchemePrefix(raw, "data", "data:");
    SchemePrefix(raw, "blob", "blob:");
    SchemePrefix(raw, "javascript", "javascript:");
    SchemePrefix(raw, "mailto", "mailto:");
    SchemePrefix(raw, "tel", "tel:");
  }

  lemma SchemePrefix(raw: string, name: string, prefix: string)
    requires ':' !in name && name != "" && prefix == name + ":"
    ensures prefix <= Lower(raw) <==> SchemeText(raw) == name
  {
    var low := Lower(raw);
    FirstLower(raw);
    if prefix <= low {
      FirstIs(name, ':', low[|name|..]);
      assert low == name + low[|name|..];
      assert raw[|name|] == ':';
    } else if ':' in raw {
      var i := First(raw, ':');
      assert low[..i + 1] == Lower(raw[..i]) + ":";
    }
  }

  lemma FirstLower(s: string)
    ensures First(Lower(s), ':') == First(s, ':')
  {
    var i := First(s, ':');
    forall k | 0 <= k < i
      ensures Lower(s)[k] != ':'
    {
      assert s[k] in s[..i];
    }
    FirstIs(Lower(s)[..i], ':', Lower(s)[i..]);
    assert Lower(s) == Lower(s)[..i] + Lower(s)[i..];
  }

  predicate Letters(name: string) {
    name != "" && forall c :: c in name ==> 'a' <= c <= 'z'
  }

  /** Letters before the first colon are the scheme. */
  lemma SchemeParses(raw: string, name: string)
    requires SchemeText(raw) == name && Letters(name) && ParseRef(raw).Some?
    ensures ParseRef(raw).value.scheme == name
  {
    var front, rest := raw[..First(raw, ':')], raw[First(raw, ':')..];
    hide ParseRef, SplitScheme, Lower, First, Letters, IsSchemeChar, IsLetter;
    LettersBelow(front, name);
    assert raw == front + rest;
    SplitBeforeFragment(front, rest);
    ParsedScheme(raw, name, Cut(raw, '#').0[|front| + 1..]);
  }

  lemma SplitBeforeFragment(front: string, rest: string)
    requires front != "" && IsLetter(front[0]) && '#' !in front && forall k :: 0 <= k < |front| ==> IsSchemeChar(front[k])
    requires rest != "" && rest[0] == ':'
    ensures var whole := Cut(front + rest, '#').0;
            |whole| > |front| && SplitScheme(whole) == Some((Lower(front), whole[|front| + 1..]))
  {
    hide SplitScheme, Lower, IsSchemeChar, IsLetter, First;
    FirstBeyond(front, '#', rest);
    SplitSchemeAt(front, (front + rest)[..First(front + rest, '#')]);
  }

  lemma ParsedScheme(raw: string, name: string, body: string)
    requires SplitScheme(Cut(raw, '#').0) == Some((name, body)) && ParseRef(raw).Some?
    ensures ParseRef(raw).value.scheme == name
  {
    hide SplitScheme, SplitPath, Cut;
    PathKeepsScheme(Cut(body, '?').0, name, Cut(body, '?').1, Cut(raw, '#').1);
  }

  lemma SplitSchemeAt(front: string, whole: string)
    requires front != "" && IsLetter(front[0]) && forall k :: 0 <= k < |front| ==> IsSchemeChar(front[k])
    requires |front| < |whole| && whole[..|front|] == front && whole[|front|] == ':'
    ensures SplitScheme(whole) == Some((Lower(front), whole[|front| + 1..]))
  {
    hide Lower, IsSchemeChar;
    forall k | 0 <= k < |front|
      ensures IsSchemeChar(whole[k])
    {
      assert whole[k] == front[k];
    }
    SchemeLengthIs(whole, |front|);
    assert whole[0] == front[0];
  }

  lemma FirstBeyond(a: string, c: char, b: string)
    requires c !in a
    ensures First(a + b, c) >= |a| && (b != "" && b[0] != c ==> First(a + b, c) > |a|)
  {
    if a != "" {
      assert (a + b)[1..] == a[1..] + b;
      FirstBeyond(a[1..], c, b);
    }
  }

  lemma LettersBelow(s: string, name: string)
    requires Lower(s) == name && Letters(name)
    ensures s != "" && IsLetter(s[0]) && '#' !in s && forall k :: 0 <= k < |s| ==> IsSchemeChar(s[k])
  {
    forall k | 0 <= k < |s|
      ensures IsLetter(s[k])
    {
      assert name[k] in name;
    }
  }

  lemma SchemeLengthIs(s: string, i: nat)
    requires i < |s| && s[i] == ':' && forall k :: 0 <= k < i ==> IsSchemeChar(s[k])
    ensures SchemeLength(s) == i
  {
    assert !IsSchemeChar(':');
  }

  lemma PathKeepsScheme(rest: string, scheme: string, query: string, fragment: string)
    requires SplitPath(rest, scheme, query, fragment).Some?
    ensures SplitPath(rest, scheme, query, fragment).value.scheme == scheme
  {
    hide SplitAuthority;
  }

  /** A reference for the web is never one of the five. */
  lemma WebIsRewritten(base: Url, raw: string)
    requires ParseRef(raw).Some? && raw != "" && raw[0] != '#' && StaysAsIs(raw)
    ensures ResolveReference(base, ParseRef(raw).value).url.scheme == SchemeText(raw)
    ensures !IsWeb(SchemeText(raw))
  {
    hide ParseRef, SchemeText, ResolvePath;
    var name := SchemeText(raw);
    assert Letters(name);
    SchemeParses(raw, name);
  }

  lemma ReferenceHostText(site: Site, g: Guard.Config, db: Db, route: Route, base: Url, raw: string)
    requires Setting(site, g, db, route, base) && ParseRef(raw).Some?
    ensures HostText(Hostname(ResolveReference(base, ParseRef(raw).value).url.host))
  {
    hide ParseRef, HostText, Hostname, PortNumber, Canonical, HostWithPort, ResolvePath, NormalizeParts, Normalize, PortAllowed,
         PlainRoutes, OnPage, ReadOrigin;
    RefHostText(raw);
    PageOrigin(g, db, route, base);
    var o := ReadOrigin(route.origin);
    NormalizedParts(g, o.scheme, o.host, o.port, base.path, base.query);
    HostnameText(ResolveReference(base, ParseRef(raw).value).url.host);
  }

  /** What does not become a web URL is replaced by a page of its own. */
  lemma BlankLeadsNowhere(site: Site, g: Guard.Config, db: Db, page: Url)
    ensures Reached(site, g, db, page, BLANK) == Nowhere
  {
    hide ParseRef, Serve;
    BlankParses();
    assert ResolvePath("", "") == "";
  }

  lemma BlankParses()
    ensures ParseRef(BLANK) == Some(Ref("about", true, false, None, "", "", "", ""))
  {
    hide ParseRef;
    var scheme := "about";
    assert PlainScheme(scheme) && '#' !in scheme;
    ParsePieces(scheme, "blank", "", "");
    assert scheme + ":" + "blank" + QuerySuffix("") + FragmentSuffix("") == BLANK;
  }

  lemma ResolvedPreserved(site: Site, g: Guard.Config, db: Db, route: Route, base: Url, r: Resolved, spare: Labels.Uuid)
    requires Setting(site, g, db, route, base) && spare !in db.routes
    requires PlainReference(r) && HostText(Hostname(r.url.host)) && DotFree(r.url.path)
    ensures var out := RewriteResolved(site, db, route, base, r, spare);
            Reached(site, g, out.db, PageURL(site, route, base), out.value) == Meant(g, r)
            <==> KeepsMeaning(site, g, db, route, base, r)
  {
    hide Reached, Meant, KeepsMeaning, HostText, DotFree, PageURL, SameOrigin, BLANK, Setting, PlainReference, RewriteResolved;
    if !IsWeb(r.url.scheme) {
      BlankLeadsNowhere(site, g, db, PageURL(site, route, base));
      NotForTheWeb(site, g, db, route, base, r, spare);
    } else if SameOrigin(r.url, base) {
      SameOriginPreserved(site, g, db, route, base, r, spare);
    } else {
      OtherOriginPreserved(site, g, db, route, base, r, spare);
    }
  }

  lemma NotForTheWeb(site: Site, g: Guard.Config, db: Db, route: Route, base: Url, r: Resolved, spare: Labels.Uuid)
    requires !IsWeb(r.url.scheme)
    ensures RewriteResolved(site, db, route, base, r, spare) == Rewritten(db, BLANK)
    ensures Meant(g, r) == Nowhere && KeepsMeaning(site, g, db, route, base, r)
  {
    hide BLANK, Reserved;
  }

  lemma SameOriginPreserved(site: Site, g: Guard.Config, db: Db, route: Route, base: Url, r: Resolved, spare: Labels.Uuid)
    requires Setting(site, g, db, route, base) && IsWeb(r.url.scheme) && SameOrigin(r.url, base)
    requires PlainReference(r) && DotFree(r.url.path)
    ensures var out := RewriteResolved(site, db, route, base, r, spare);
            Reached(site, g, out.db, PageURL(site, route, base), out.value) == Meant(g, r)
            <==> KeepsMeaning(site, g, db, route, base, r)
  {
    hide Reached, PlainPart, DotFree, PageURL, Reserved, Target, SameOrigin, Unserved, Named, Setting, NoBrackets, FragmentSuffix,
         QuerySuffix, RequestPath, ResolveRoute, RouteURL;
    SettingParts(site, g, db, route, base);
    SameOriginTarget(g, db, route, base, r.(user := false));
    SameOriginReached(site, g, db, route, base, r);
    RefusedWithCredentials(g, r);
  }

  lemma RefusedWithCredentials(g: Guard.Config, r: Resolved)
    ensures r.user ==> Target(g, r) == None
    ensures !r.user ==> r.(user := false) == r
  {
  }

  lemma OtherOriginPreserved(site: Site, g: Guard.Config, db: Db, route: Route, base: Url, r: Resolved, spare: Labels.Uuid)
    requires Setting(site, g, db, route, base) && spare !in db.routes
    requires IsWeb(r.url.scheme) && !SameOrigin(r.url, base)
    requires PlainReference(r) && HostText(Hostname(r.url.host)) && DotFree(r.url.path)
    ensures var out := RewriteResolved(site, db, route, base, r, spare);
            Reached(site, g, out.db, PageURL(site, route, base), out.value) == Meant(g, r)
            <==> KeepsMeaning(site, g, db, route, base, r)
  {
    hide Reached, HostText, PlainPart, DotFree, PageURL, ResolveRoute, RouteURL, Reserved, Survives, Target, SameOrigin, Unserved,
         Named, Forwarded, ValidOrigin, Misread, BLANK, Setting, NoBrackets, FragmentSuffix, QuerySuffix, Hostname, PortNumber,
         RequestPath;
    var plain := r.(user := false);
    SettingParts(site, g, db, route, base);
    RouteReached(site, g, db, route, base, r, spare);
    ForwardedIsTarget(g, plain);
    RefusedWithCredentials(g, r);
    if !ValidOrigin(OriginOf(r.url)) {
      BlankLeadsNowhere(site, g, db, PageURL(site, route, base));
      ImpossiblePort(g, plain);
    }
  }

  lemma SettingParts(site: Site, g: Guard.Config, db: Db, route: Route, base: Url)
    requires Setting(site, g, db, route, base)
    ensures IdnaOk(g.idna) && PlainRoutes(db) && OnPage(g, db, route, base)
  {
  }

  lemma ImpossiblePort(g: Guard.Config, r: Resolved)
    requires IsWeb(r.url.scheme) && !ValidOrigin(OriginOf(r.url))
    ensures Target(g, r) == None && !Misread(g, OriginOf(r.url))
  {
    hide Hostname, PortNumber, Canonical, IsControlPlane;
  }

  // ----- what follows from it ---------------------------------------------------------------

  /** A reference the guard refuses for its host stays refused once it is rewritten, unless its address is misread. */
  lemma RefusedStaysRefused(site: Site, g: Guard.Config, db: Db, route: Route, base: Url, r: Resolved, spare: Labels.Uuid)
    requires Setting(site, g, db, route, base) && spare !in db.routes
    requires PlainReference(r) && HostText(Hostname(r.url.host)) && DotFree(r.url.path)
    requires Target(g, r.(user := false)) == None && !Misread(g, OriginOf(r.url))
    ensures var out := RewriteResolved(site, db, route, base, r, spare);
            Reached(site, g, out.db, PageURL(site, route, base), out.value) == Nowhere
  {
    hide Reached, HostText, PlainReference, DotFree, PageURL, RewriteResolved, Survives, NormalizeParts, SameOrigin, Unserved, Named,
         Misread, Reserved, Setting;
    if IsWeb(r.url.scheme) && SameOrigin(r.url, base) {
      SettingParts(site, g, db, route, base);
      SameOriginTarget(g, db, route, base, r.(user := false));
      assert false;
    }
    ResolvedPreserved(site, g, db, route, base, r, spare);
  }

  /** A reference with credentials, which the guard refuses, leads to the very target it names without them as soon as it
      is rewritten for another origin. */
  lemma CredentialsAreDropped(site: Site, g: Guard.Config, db: Db, route: Route, base: Url, r: Resolved, spare: Labels.Uuid)
    requires Setting(site, g, db, route, base) && spare !in db.routes
    requires PlainReference(r) && HostText(Hostname(r.url.host)) && DotFree(r.url.path)
    requires r.user && Target(g, r.(user := false)).Some? && !SameOrigin(r.url, base) && !Reserved(RequestPath(r.url.path))
    ensures Meant(g, r) == Nowhere
    ensures var out := RewriteResolved(site, db, route, base, r, spare);
            Reached(site, g, out.db, PageURL(site, route, base), out.value) == Meant(g, r.(user := false)) != Nowhere
  {
    hide Reached, HostText, NoBrackets, PlainPart, DotFree, PageURL, Survives, NormalizeParts, SameOrigin, Unserved, Named, Misread, Reserved,
         Setting, KeepsMeaning;
    var plain := r.(user := false);
    ResolvedPreserved(site, g, db, route, base, plain, spare);
    assert KeepsMeaning(site, g, db, route, base, plain) by {
      KeepsWithoutCredentials(site, g, db, route, base, plain);
    }
    assert RewriteResolved(site, db, route, base, plain, spare) == RewriteResolved(site, db, route, base, r, spare);
  }

  lemma KeepsWithoutCredentials(site: Site, g: Guard.Config, db: Db, route: Route, base: Url, r: Resolved)
    requires !r.user && Target(g, r).Some? && !SameOrigin(r.url, base) && !Reserved(RequestPath(r.url.path))
    ensures KeepsMeaning(site, g, db, route, base, r)
  {
    hide Reserved, SameOrigin, NormalizeParts, Unserved, Named, Misread;
  }

  /** An address is misread exactly when it is a name, a colon and digits, and the guard accepts that name at that port:
      rewritten, a bracketed reference the guard refuses then leads to a target nobody named. */
  lemma MisreadExactly(g: Guard.Config, scheme: string, host: string)
    requires IdnaOk(g.idna) && IsWeb(scheme) && HostText(host) && NoBrackets(host)
    ensures Misread(g, Origin(scheme, host, DefaultPort(scheme)))
            <==> match Last(host, ':')
                 case None => false
                 case Some(i) =>
                   && ':' !in host[..i] && AllDigits(host[i + 1..])
                   && NormalizeParts(g, scheme, host[..i],
                                     if i + 1 == |host| then DefaultPort(scheme) else Atoi(host[i + 1..]), "", "").Some?
  {
    hide AllDigits, NormalizeParts, Atoi, HostText;
    match Last(host, ':')
    case None =>
    case Some(i) =>
      assert ':' in host;
      assert host[i] == ':';
      var name := host[..i];
      assert NoBrackets(name) by {
        assert forall c :: c in name ==> c in host;
      }
      Unbracketed(name);
      assert host != "" && host[0] != '[' by {
        assert host[0] in host;
      }
      if ':' in name {
        ColonIsRefused(g, scheme, name, PortNumber(host, scheme), "", "");
      }
  }

  /** The two branches agree: had a reference to the page's own origin been given a route, as one with an explicit
      default port is, it would have led to the same target. */
  lemma BranchesAgree(site: Site, g: Guard.Config, db: Db, route: Route, base: Url, r: Resolved, spare: Labels.Uuid,
                      made: (Db, Labels.Uuid))
    requires Setting(site, g, db, route, base) && spare !in db.routes
    requires PlainReference(r) && HostText(Hostname(r.url.host)) && DotFree(r.url.path) && IsWeb(r.url.scheme)
    requires SameOrigin(r.url, base) && Survives(base, r.url) && !Reserved(RequestPath(r.url.path))
    requires ResolveRoute(db, route.context, route.user, OriginOf(r.url), spare) == Some(made)
    ensures var page := PageURL(site, route, base);
            Reached(site, g, db, page, r.url.path + QuerySuffix(r.url.query) + FragmentSuffix(r.fragment))
            == Reached(site, g, made.0, page, RouteURL(site, made.1, r.url.path, r.url.query) + FragmentSuffix(r.fragment))
  {
    hide Reached, HostText, PlainPart, DotFree, PageURL, ResolveRoute, RouteURL, Reserved, Survives, NormalizeParts, Forwarded,
         Misread, NoBrackets, SameOrigin, Unserved, Named, Setting, FragmentSuffix, QuerySuffix, Hostname, PortNumber;
    var plain := r.(user := false);
    SettingParts(site, g, db, route, base);
    SameOriginTarget(g, db, route, base, plain);
    SameOriginReached(site, g, db, route, base, r);
    RouteReached(site, g, db, route, base, r, spare);
    ForwardedIsTarget(g, plain);
  }

  /** What happens otherwise: a bare path that starts with two slashes sends the browser to the host it names, and off the
      proxy unless that host lies below the proxy domain. */
  lemma DoubledSlashLeavesTheProxy(site: Site, g: Guard.Config, db: Db, page: Url, host: string, rest: string)
    requires host != "" && PlainHost(host) && (rest == "" || (PlainPath(rest) && DotFree(rest)))
    ensures var there := Url(page.scheme, host, RequestPath(rest), "");
            && BrowserResolve(page, "//" + host + rest) == Some(there)
            && (!OnProxy(site, there) ==> Reached(site, g, db, page, "//" + host + rest) == Elsewhere(there))
  {
    hide ParseRef, DotFree, ResolvePath, PortAllowed, OnProxy, Serve;
    var value := "//" + host + rest;
    StripValue("//" + host + rest, "", "");
    assert value + "" + "" == value;
    StripPlain(host, rest);
    FirstIs(host, '/', rest);
    var after := host + rest;
    assert after[..|host|] == host && after[|host|..] == rest;
    ParseAuthority(after, "", "");
    assert "//" + after + "" + "" == "//" + after;
    if rest == "" {
      assert ResolvePath("", "") == "";
    } else {
      ResolveRooted(rest);
    }
  }

  lemma StripPlain(host: string, rest: string)
    requires host != "" && '/' !in host
    ensures StripSlashes("//" + host + rest) == host + rest
  {
    var value := "//" + host + rest;
    assert host[0] in host && (host + rest)[0] == host[0];
    assert value[1..] == "/" + host + rest && value[1..][1..] == host + rest;
    assert StripSlashes(value[1..]) == StripSlashes(host + rest);
  }

  /** Every page a browser gets under a route URL is such a page: the theorem applies to all of them. */
  lemma ServedPageIsSetting(site: Site, g: Guard.Config, db: Db, route: Route, path: string, query: string)
    requires SiteOk(site) && IdnaOk(g.idna) && Inv(db) && PlainRoutes(db)
    requires RouteByLabel(db, Labels.Print(route.id)) == Some(route)
    requires PlainPart(path, query) && DotFree(path) && Serve(site, g, db, RouteAt(site, route.id, path, query)).Some?
    ensures var base := Serve(site, g, db, RouteAt(site, route.id, path, query)).value;
            && Setting(site, g, db, route, base)
            && PageURL(site, route, base) == RouteAt(site, route.id, RequestPath(path), query)
  {
    hide RouteByLabel, Serve, Reserved, NormalizeParts, Normalize, ForwardTarget, HostText, DotFree, Labels.Print, Inv, SiteOk, IdnaOk,
         Hostname, PortNumber, PortAllowed, HostWithPort;
    RouteIsStored(db, Labels.Print(route.id));
    ServeForwards(site, g, db, route.id, path, query);
    RequestPathPlain(path, query);
    ForwardTyped(g, route.origin, RequestPath(path), query);
    NormalizeSetsPath(g, ReadOrigin(route.origin), RequestPath(path), query, RequestPath(path), query);
    RequestPathRooted(path);
  }

  /** Opening a context for a target and following the URL of its first route fetches that very target, unless its path is
      one the proxy answers itself. */
  lemma OpenedTargetIsServed(site: Site, g: Guard.Config, db: Db, raw: string, input: NewContext, spare: Spare, now: Time)
    requires SiteOk(site) && IdnaOk(g.idna) && Inv(db) && PlainRoutes(db)
    requires Normalize(g, raw).Some? && PlainPart(Normalize(g, raw).value.path, Normalize(g, raw).value.query)
    requires input.origin == OriginOf(Normalize(g, raw).value) && CreateContext(db, input, spare, now).Some?
    ensures var (db', id) := CreateContext(db, input, spare, now).value;
            var t := Normalize(g, raw).value;
            && Inv(db') && PlainRoutes(db')
            && Serve(site, g, db', RouteAt(site, id, t.path, t.query))
               == if Reserved(RequestPath(t.path)) then None else Some(t.(path := RequestPath(t.path)))
  {
    hide RouteByLabel, Serve, Reserved, NormalizeParts, Normalize, PlainPart, HostText, Labels.Print, SiteOk, IdnaOk,
         Hostname, PortNumber, CreateContext, Inv;
    var t := Normalize(g, raw).value;
    var (db', id) := CreateContext(db, input, spare, now).value;
    NormalizedIsNormal(g, raw);
    CreateContextKeeps(db, input, spare, now);
    FirstRoute(db, input, spare, now);
    ServeRoute(site, g, db', id, t.path, t.query);
    NormalizeSetsPath(g, input.origin, t.path, t.query, RequestPath(t.path), t.query);
  }

  /** What opening a context adds to the tables. */
  lemma FirstRoute(db: Db, input: NewContext, spare: Spare, now: Time)
    requires Inv(db) && CreateContext(db, input, spare, now).Some?
    ensures var (db', id) := CreateContext(db, input, spare, now).value;
            && RouteByLabel(db', Labels.Print(id)).Some?
            && RouteByLabel(db', Labels.Print(id)).value.origin == input.origin
            && db'.routes == db.routes[id := RouteKey(spare.context, input.origin)]
  {
    hide Labels.Print, Labels.Parse, ValidOrigin, Inv;
    var (db', id) := CreateContext(db, input, spare, now).value;
    assert RouteKey(spare.context, input.origin) !in db.index by {
      NoRouteYet(db, RouteKey(spare.context, input.origin));
    }
    Labels.RoundTrip(id, "");
  }

  lemma NoRouteYet(db: Db, key: RouteKey)
    requires Inv(db) && key.context !in db.contexts
    ensures key !in db.index
  {
    hide ValidOrigin;
  }

  /** Rewriting one reference, whatever it is, leaves the page ready for the next. */
  lemma RewriteKeepsSetting(site: Site, g: Guard.Config, db: Db, route: Route, base: Url, text: string,
                            spare: Labels.Uuid)
    requires Setting(site, g, db, route, base)
    ensures Setting(site, g, RewriteURL(site, db, route, base, text, spare).db, route, base)
  {
    hide PlainHostname, PlainPart, DotFree, ParseRef, TrimSpace, Untouched, RouteURL, SameOrigin, NormalizeParts, SiteOk, Reserved,
         IdnaOk, Hostname, PortNumber, Labels.Parse, Labels.Print, ResolveReference, ValidOrigin, Bijective, HostText;
    if ParseRef(TrimSpace(text)).Some? {
      var u := ResolveReference(base, ParseRef(TrimSpace(text)).value).url;
      ReferenceHostText(site, g, db, route, base, TrimSpace(text));
      if ResolveRoute(db, route.context, route.user, OriginOf(u), spare).Some? {
        InsertRouteKeeps(db, RouteKey(route.context, OriginOf(u)), spare);
      }
    }
  }

  // ----- proxy URLs mapped back -------------------------------------------------------------

  /** `mapProxyURLForContext`; without a current route any context will do, as in `mapProxyURL`. */
  function MapProxyURL(site: Site, db: Db, current: Option<Route>, value: string): Option<string> {
    match ParseRef(value)
    case None => None
    case Some(ref) =>
      match LabelOf(site, Hostname(ref.host))
      case None => None
      case Some(name) =>
        match RouteByLabel(db, name)
        case None => None
        case Some(route) =>
          if current.Some? && (route.context != current.value.context || route.user != current.value.user) then None
          else Some(PrintRef(OnOrigin(ref, route.origin, route.origin.scheme)))
  }

  function OnOrigin(ref: Ref, o: Origin, scheme: string): Ref {
    ref.(scheme := scheme, host := HostWithPort(o.host, o.port, o.scheme))
  }

  /** `normalizeClientURL`: a proxy URL of the current context becomes the upstream URL, anything else is left alone. */
  function NormalizeClientURL(site: Site, db: Db, current: Route, value: string): string {
    match ParseRef(value)
    case None => value
    case Some(ref) =>
      match LabelOf(site, Hostname(ref.host))
      case None => value
      case Some(name) =>
        match RouteByLabel(db, name)
        case None => value
        case Some(mapped) =>
          if mapped.context != current.context || mapped.user != current.user then value
          else
            var socket := ref.scheme == "ws" || ref.scheme == "wss";
            var scheme := if !socket then mapped.origin.scheme else if mapped.origin.scheme == "https" then "wss" else "ws";
            PrintRef(OnOrigin(ref, mapped.origin, scheme))
  }

  /** `resolveURL` for a target the policies allow. */
  function ResolveEndpoint(site: Site, g: Guard.Config, db: Db, current: Route, value: string,
                           spare: Labels.Uuid): Option<Rewritten> {
    match Normalize(g, NormalizeClientURL(site, db, current, value))
    case None => None
    case Some(t) =>
      match ResolveRoute(db, current.context, current.user, OriginOf(t), spare)
      case None => None
      case Some((db', id)) => Some(Rewritten(db', RouteURL(site, id, t.path, t.query)))
  }

  lemma RouteHostLabel(site: Site, id: Labels.Uuid)
    requires SiteOk(site)
    ensures LabelOf(site, Hostname(Labels.Print(id) + "." + site.base)) == Some(Labels.Print(id))
  {
    hide Labels.Print, LabelOf, AllDigits, NoSpace, Hostname, PlainLabel, PlainName, PortAllowed;
    var domain: string, digits: string :| BaseIs(site.base, domain, digits);
    PrintedLabel(id);
    var name := Labels.Print(id) + "." + domain;
    NamePlain(Labels.Print(id), domain);
    HostnameOf(name, digits);
    assert Labels.Print(id) + "." + site.base == if digits == "" then name else name + ":" + digits;
    RouteAuthority(site, domain, digits, Labels.Print(id));
  }

  lemma HostnameOf(name: string, digits: string)
    requires HostChars(name) && ':' !in name && AllDigits(digits)
    ensures Hostname(if digits == "" then name else name + ":" + digits) == name
  {
    hide AllDigits, NoSpace;
    BareHost(name);
    if digits != "" {
      SplitHostPort(name, digits);
      Unbracketed(name);
      assert name + ":" + digits == name + [':'] + digits;
    }
  }

  /** A normalised target: the authority is the one printed for its origin. */
  predicate IsNormal(t: Url) {
    IsWeb(t.scheme) && t.host == HostWithPort(Hostname(t.host), PortNumber(t.host, t.scheme), t.scheme)
  }

  /** `mapProxyURL` and `normalizeClientURL` invert `routeURL`. */
  lemma MapsBack(site: Site, db: Db, id: Labels.Uuid, t: Url, current: Route)
    requires SiteOk(site) && IsNormal(t) && PlainPart(t.path, t.query)
    requires RouteByLabel(db, Labels.Print(id)).Some? && RouteByLabel(db, Labels.Print(id)).value.origin == OriginOf(t)
    ensures var (value, route) := (RouteURL(site, id, t.path, t.query), RouteByLabel(db, Labels.Print(id)).value);
            && MapProxyURL(site, db, None, value) == Some(Print(t))
            && (route.context == current.context && route.user == current.user
                ==> MapProxyURL(site, db, Some(current), value) == Some(Print(t))
                    && NormalizeClientURL(site, db, current, value) == Print(t))
            && (route.context != current.context || route.user != current.user
                ==> MapProxyURL(site, db, Some(current), value) == None
                    && NormalizeClientURL(site, db, current, value) == value)
  {
    hide ParseRef, LabelOf, RouteByLabel, Labels.Print, PlainPart, Hostname, PortNumber, HostWithPort, SiteOk;
    RouteURLReads(site, id, t.path, t.query, "");
    assert RouteURL(site, id, t.path, t.query) + "" == RouteURL(site, id, t.path, t.query);
    RouteHostLabel(site, id);
    var ref := RefOf(RouteAt(site, id, t.path, t.query), "");
    PrintedOnOrigin(ref, OriginOf(t), t);
  }

  lemma PrintedOnOrigin(ref: Ref, o: Origin, t: Url)
    requires ref.user == None && ref.fragment == "" && ref.path == t.path && ref.query == t.query
    requires o.scheme == t.scheme && HostWithPort(o.host, o.port, o.scheme) == t.host
    ensures PrintRef(OnOrigin(ref, o, o.scheme)) == Print(t)
  {
    hide HostWithPort;
    assert t.scheme + "://" + "" + t.host + t.path + QuerySuffix(t.query) + "" == Print(t);
  }

  lemma NormalizedIsNormal(g: Guard.Config, raw: string)
    requires IdnaOk(g.idna) && Normalize(g, raw).Some?
    ensures var t := Normalize(g, raw).value;
            && IsNormal(t) && PlainHostname(Hostname(t.host)) && PlainHost(t.host) && NoSpace(t.host)
            && NormalizeParts(g, t.scheme, Hostname(t.host), PortNumber(t.host, t.scheme), t.path, t.query) == Some(t)
            && 1 <= PortNumber(t.host, t.scheme) <= 65535
  {
    hide Complete, ParseRef, Hostname, PortNumber, HostWithPort, IsControlPlane, Canonical, PortAllowed, NoSpace;
    var ref := ParseRef(Complete(raw)).value;
    var scheme, name, port := ref.scheme, Hostname(ref.host), PortNumber(ref.host, ref.scheme);
    NormalizedParts(g, scheme, name, port, ref.path, ref.query);
    NormalizeIdempotent(g, scheme, name, port, ref.path, ref.query);
    var t := Normalize(g, raw).value;
    assert PlainName(g.idna[Canonical(name)]);
    OriginAuthority(OriginOf(t));
  }

  /** The targets the guard leaves as they are: every web URL on a canonical host outside Tvpn, with its port spelled out
      only where it is not the default one. */
  lemma PlainTargetIsNormal(g: Guard.Config, o: Origin, path: string, query: string)
    requires (o.scheme == "http" || o.scheme == "https") && PlainName(o.host) && 1 <= o.port <= 65535 && PlainPart(path, query)
    requires o.host in g.idna && g.idna[o.host] == o.host && o.host != g.appHost && !AtOrBelow(o.host, g.proxyDomain)
    ensures var u := Url(o.scheme, HostWithPort(o.host, o.port, o.scheme), path, query);
            Normalize(g, Print(u)) == Some(u)
  {
    hide Hostname, PortNumber, HostWithPort, Normalize, AtOrBelow, PlainHost, Print, Readable;
    var host := HostWithPort(o.host, o.port, o.scheme);
    OriginAuthority(o);
    PrintReadable(o.scheme, host, path, query);
    NormalizePrinted(g, Url(o.scheme, host, path, query));
    CanonicalIsItself(o.host);
  }

  lemma CanonicalIsItself(host: string)
    requires PlainName(host)
    ensures Canonical(host) == host
  {
    assert host[|host| - 1..] == [host[|host| - 1]];
  }

  /** The resolve endpoint gives its own outputs back, in the same context, whatever id is on offer: this is what lets
      the page runtime return proxy URLs as they are. */
  lemma ResolveIsIdempotent(site: Site, g: Guard.Config, db: Db, current: Route, value: string,
                            spare: Labels.Uuid, other: Labels.Uuid)
    requires SiteOk(site) && IdnaOk(g.idna) && Inv(db)
    requires ResolveEndpoint(site, g, db, current, value, spare).Some?
    requires var t := Normalize(g, NormalizeClientURL(site, db, current, value)).value; PlainPart(t.path, t.query)
    ensures var out := ResolveEndpoint(site, g, db, current, value, spare).value;
            ResolveEndpoint(site, g, out.db, current, out.value, other) == Some(out)
  {
    var text := NormalizeClientURL(site, db, current, value);
    var t := Normalize(g, text).value;
    var (db', id) := ResolveRoute(db, current.context, current.user, OriginOf(t), spare).value;
    hide NormalizeClientURL, PlainPart, Labels.Print, RouteByLabel, ResolveRoute, Hostname, PortNumber, HostWithPort,
         NormalizeParts, Normalize, RouteURL, SiteOk, IdnaOk, Inv, PlainHostname, NoSpace, PlainHost, Readable;
    NormalizedIsNormal(g, text);
    ResolveThenLookUp(db, current.context, current.user, OriginOf(t), spare, other);
    MapsBack(site, db', id, t, current);
    PrintReadable(t.scheme, t.host, t.path, t.query);
    NormalizePrinted(g, t);
  }

  /** Two spellings the guard normalises alike are filed under the same route. */
  lemma SpellingsShareRoute(g: Guard.Config, db: Db, context: Labels.Uuid, user: Labels.Uuid, a: string, b: string,
                            spare: Labels.Uuid, other: Labels.Uuid)
    requires IdnaOk(g.idna) && Inv(db)
    requires Normalize(g, a).Some? && Normalize(g, b).Some?
    requires Normalize(g, a).value.scheme == Normalize(g, b).value.scheme
    requires Normalize(g, a).value.host == Normalize(g, b).value.host
    requires ResolveRoute(db, context, user, OriginOf(Normalize(g, a).value), spare).Some?
    ensures var (db', id) := ResolveRoute(db, context, user, OriginOf(Normalize(g, a).value), spare).value;
            ResolveRoute(db', context, user, OriginOf(Normalize(g, b).value), other) == Some((db', id))
  {
    hide Normalize, ResolveRoute, RouteByLabel, Labels.Print, Hostname, PortNumber, Inv, IdnaOk;
    ResolveThenLookUp(db, context, user, OriginOf(Normalize(g, a).value), spare, other);
  }
}

/** `Guard.Resolve` up to the address lookup: one spelling for each upstream target. */
module Guard {
  import opened Wrappers
  import opened Text
  import opened Urls

  /** `idna` stands for `idna.Lookup.ToASCII` on the hosts it accepts. */
  datatype Config = Config(appHost: string, proxyDomain: string, idna: map<string, string>)

  /** What is assumed of it: it accepts no host with a colon, and its output is lower case, has no trailing dot, no colon
      and nothing else an authority is split at, and is left alone by a second application. */
  ghost predicate IdnaOk(idna: map<string, string>) {
    forall h :: h in idna ==> ':' !in h && idna[h] in idna && idna[idna[h]] == idna[h] && PlainName(idna[h])
  }

  predicate PlainName(name: string) {
    && Lower(name) == name && name != "" && name[|name| - 1] != '.'
    && '/' !in name && '?' !in name && '#' !in name && '@' !in name && '[' !in name && ']' !in name && ':' !in name
    && NoSpace(name)
  }

  predicate IsControlPlane(g: Config, host: string) {
    host == g.appHost || AtOrBelow(host, g.proxyDomain)
  }

  /** `normalizeTargetURL`: a missing scheme is completed as http. */
  function Complete(raw: string): string {
    var value := TrimSpace(raw);
    if value == "" || Contains(value, "://") then value
    else if "//" <= value then "http:" + value
    else "http://" + value
  }

  predicate Contains(s: string, part: string)
    requires part != ""
  {
    |part| <= |s| && (s[..|part|] == part || Contains(s[1..], part))
  }

  lemma {:induction false} ContainsMiddle(a: string, part: string, b: string)
    requires part != ""
    ensures Contains(a + part + b, part)
  {
    var s := a + part + b;
    if a == "" {
      assert s[..|part|] == part;
    } else {
      assert s[1..] == a[1..] + part + b;
      ContainsMiddle(a[1..], part, b);
    }
  }

  /** The host as the guard compares it. */
  function Canonical(hostname: string): string {
    TrimSuffix(Lower(hostname), ".")
  }

  function Normalize(g: Config, raw: string): Option<Url> {
    match ParseRef(Complete(raw))
    case None => None
    case Some(ref) =>
      if !IsWeb(ref.scheme) || ref.user.Some? then None
      else NormalizeParts(g, ref.scheme, Hostname(ref.host), PortNumber(ref.host, ref.scheme), ref.path, ref.query)
  }

  function NormalizeParts(g: Config, scheme: string, hostname: string, port: nat, path: string,
                          query: string): Option<Url> {
    if hostname == "" || Canonical(hostname) !in g.idna then None
    else
      var host := g.idna[Canonical(hostname)];
      if IsControlPlane(g, host) || !(1 <= port <= 65535) then None
      else Some(Url(scheme, HostWithPort(host, port, scheme), path, query))
  }

  // ----- reading a printed URL --------------------------------------------------------------

  lemma {:induction false} TrimNothing(s: string)
    requires NoSpace(s)
    ensures TrimSpace(s) == s
  {
  }

  /** A URL whose printed form is read back by the guard: plain, and free of white space. */
  predicate Readable(u: Url) {
    IsWeb(u.scheme) && Plain(u) && NoSpace(Print(u))
  }

  lemma CompletePrinted(u: Url)
    requires NoSpace(Print(u))
    ensures Complete(Print(u)) == Print(u)
  {
    hide TrimSpace, Contains, Print;
    TrimNothing(Print(u));
    PrintedHasScheme(u);
  }

  lemma PrintedHasScheme(u: Url)
    ensures Contains(Print(u), "://")
  {
    hide Contains, QuerySuffix;
    var rest := u.host + u.path + QuerySuffix(u.query);
    ContainsMiddle(u.scheme, "://", rest);
    assert Print(u) == u.scheme + "://" + rest;
  }

  /** What the guard makes of a printed URL with any authority. */
  lemma NormalizeTyped(g: Config, u: Url)
    requires IsWeb(u.scheme) && PlainScheme(u.scheme) && HostText(u.host) && PlainPath(u.path) && '#' !in u.query
    requires NoSpace(Print(u))
    ensures Normalize(g, Print(u))
            == if PortAllowed(u.host)
               then NormalizeParts(g, u.scheme, Hostname(u.host), PortNumber(u.host, u.scheme), u.path, u.query)
               else None
  {
    hide Print, Complete, ParseRef, PlainScheme, HostText, PortAllowed, NormalizeParts, Hostname, PortNumber;
    CompletePrinted(u);
    ParseTyped(u, "");
    assert Print(u) + "" == Print(u);
  }

  lemma NormalizePrinted(g: Config, u: Url)
    requires Readable(u)
    ensures Normalize(g, Print(u))
            == NormalizeParts(g, u.scheme, Hostname(u.host), PortNumber(u.host, u.scheme), u.path, u.query)
  {
    hide Print, Normalize, NormalizeParts, Hostname, PortNumber, PortAllowed, NoSpace;
    NormalizeTyped(g, u);
  }

  /** The authority of a normalised URL is the one printed for its host name and port. */
  lemma NormalizedParts(g: Config, scheme: string, hostname: string, port: nat, path: string, query: string)
    requires IdnaOk(g.idna) && IsWeb(scheme) && NormalizeParts(g, scheme, hostname, port, path, query).Some?
    ensures var t := NormalizeParts(g, scheme, hostname, port, path, query).value;
            && t == Url(scheme, HostWithPort(g.idna[Canonical(hostname)], port, scheme), path, query)
            && Hostname(t.host) == g.idna[Canonical(hostname)] && PortNumber(t.host, scheme) == port
            && PlainHost(t.host)
            && Canonical(Hostname(t.host)) == Hostname(t.host)
  {
    hide Hostname, PortNumber, IsControlPlane, PortAllowed;
    var host := g.idna[Canonical(hostname)];
    assert PlainName(host);
    HostWithPortReadsBack(host, port, scheme);
    PlainAuthority(host, port, scheme);
  }

  lemma PlainAuthority(host: string, port: nat, scheme: string)
    requires PlainName(host)
    ensures var h := HostWithPort(host, port, scheme); '/' !in h && '?' !in h && '#' !in h && '@' !in h
  {
    hide Itoa;
    var digits := Itoa(port);
    assert '/' !in digits && '?' !in digits && '#' !in digits && '@' !in digits;
  }

  /** A target the guard may let through: a web URL with a usable port, on a host that is not Tvpn's own. */
  predicate Outside(g: Config, u: Url) {
    var host := Hostname(u.host);
    && (u.scheme == "http" || u.scheme == "https") && 1 <= PortNumber(u.host, u.scheme) <= 65535
    && host != "" && host != g.appHost && !AtOrBelow(host, g.proxyDomain)
  }

  /** No spelling of a control-plane host, in whatever case, with trailing dot, port or mapped by IDNA, gets through. */
  lemma NormalizedIsOutside(g: Config, raw: string)
    requires IdnaOk(g.idna) && Normalize(g, raw).Some?
    ensures Outside(g, Normalize(g, raw).value) && ParseRef(Complete(raw)).value.user.None?
  {
    hide Complete, ParseRef, Hostname, PortNumber, AtOrBelow, HostWithPort, Canonical;
    var ref := ParseRef(Complete(raw)).value;
    NormalizedParts(g, ref.scheme, Hostname(ref.host), PortNumber(ref.host, ref.scheme), ref.path, ref.query);
    assert PlainName(g.idna[Canonical(Hostname(ref.host))]);
  }

  /** Normalising twice is normalising once. */
  lemma NormalizeIdempotent(g: Config, scheme: string, hostname: string, port: nat, path: string, query: string)
    requires IdnaOk(g.idna) && IsWeb(scheme) && NormalizeParts(g, scheme, hostname, port, path, query).Some?
    ensures var t := NormalizeParts(g, scheme, hostname, port, path, query).value;
            forall path', query' ::
              NormalizeParts(g, scheme, Hostname(t.host), PortNumber(t.host, scheme), path', query')
              == Some(t.(path := path', query := query'))
  {
    hide Hostname, PortNumber, Canonical, IsControlPlane, HostWithPort;
    NormalizedParts(g, scheme, hostname, port, path, query);
    assert PlainName(g.idna[Canonical(hostname)]);
  }

  /** A target typed without a scheme, or with two slashes in front, is read as an http one. */
  lemma TypedIsHttp(g: Config, host: string, rest: string)
    requires host != "" && '/' !in host && NoSpace(host + rest) && !Contains(host + rest, "://") && !Contains("//" + host + rest, "://")
    ensures Normalize(g, host + rest) == Normalize(g, "http://" + host + rest)
    ensures Normalize(g, "//" + host + rest) == Normalize(g, "http://" + host + rest)
  {
    hide ParseRef, Contains, TrimSpace;
    var value := host + rest;
    assert value[0] == host[0] && host[0] in host;
    assert "//" + host + rest == "//" + value && "http://" + host + rest == "http://" + value;
    Completed(value);
  }

  lemma Completed(value: string)
    requires NoSpace(value) && value != "" && value[0] != '/'
    requires !Contains(value, "://") && !Contains("//" + value, "://")
    ensures Complete(value) == "http://" + value
    ensures Complete("//" + value) == "http://" + value
    ensures Complete("http://" + value) == "http://" + value
  {
    hide Contains, TrimSpace;
    TrimNothing(value);
    TrimNothing("//" + value);
    TrimNothing("http://" + value);
    ContainsMiddle("http", "://", value);
    assert "http" + "://" + value == "http://" + value;
    assert "http:" + ("//" + value) == "http://" + value;
  }
}

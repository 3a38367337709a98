/** From a raw URL to an open connection: `Guard.Resolve` with its address checks, `authorize`, and the dial that
    `transport` pins to one checked address. */
module Egress {
  import opened Wrappers
  import opened Frames
  import opened Text
  import opened Cidr
  import opened Urls
  import opened Guard
  import opened Policy
  import opened Redirects

  /** `literals` is `netip.ParseAddr` on the hosts that are addresses. */
  datatype Site = Site(guard: Config, literals: map<string, Addr>, nets: NetText)

  ghost predicate SiteOk(s: Site) {
    IdnaOk(s.guard.idna) && NetTextOk(s.nets) && forall h :: h in s.literals ==> ValidAddr(s.literals[h])
  }

  datatype Target = Target(url: Url, addresses: seq<Addr>, port: nat)

  /** One call of `authorize`: the URL asked for, what the DNS answered then, and the user's policies then. */
  datatype Ask = Ask(raw: string, lookup: Option<seq<Addr>>, policies: seq<Policy>)

  ghost predicate AskOk(ask: Ask) {
    ask.lookup.Some? ==> forall a :: a in ask.lookup.value ==> ValidAddr(a)
  }

  // ----- addresses --------------------------------------------------------------------------

  const HARD_DENIED: seq<Addr> :=
    [V4(0xA9FE_A9FE), V4(0xA9FE_AA02), V4(0x6464_64C8), V6(0xFD00_0EC2_0000_0000_0000_0000_0000_0254)]

  method HardDenied(address: Addr) returns (r: bool)
    ensures r <==> Unmap(address) in HARD_DENIED
  {
    for k := 0 to |HARD_DENIED|
      invariant Unmap(address) !in HARD_DENIED[..k]
    {
      assert HARD_DENIED[..k + 1] == HARD_DENIED[..k] + [HARD_DENIED[k]];
      if Unmap(address) == HARD_DENIED[k] {
        return true;
      }
    }
    assert HARD_DENIED[..|HARD_DENIED|] == HARD_DENIED;
    return false;
  }

  /** The addresses a host stands for, before they are checked. */
  function Found(s: Site, host: string, lookup: Option<seq<Addr>>): Option<seq<Addr>> {
    if host in s.literals then Some([Unmap(s.literals[host])])
    else if lookup.None? || lookup.value == [] then None
    else lookup
  }

  function UnmapAll(addresses: seq<Addr>): (r: seq<Addr>)
    ensures |r| == |addresses| && forall k :: 0 <= k < |r| ==> r[k] == Unmap(addresses[k])
  {
    seq(|addresses|, k requires 0 <= k < |addresses| => Unmap(addresses[k]))
  }

  ghost predicate NoneDenied(addresses: seq<Addr>) {
    forall a :: a in addresses ==> a !in HARD_DENIED
  }

  /** The loop at the end of `Resolve`: unmaps in place, and gives up at the first address that is always denied. */
  method CheckAddresses(addresses: array<Addr>) returns (ok: bool)
    modifies addresses
    ensures ok <==> NoneDenied(UnmapAll(old(addresses[..])))
    ensures ok ==> addresses[..] == UnmapAll(old(addresses[..]))
  {
    ghost var before := addresses[..];
    for k := 0 to addresses.Length
      invariant forall j :: 0 <= j < k ==> addresses[j] == Unmap(before[j]) && addresses[j] !in HARD_DENIED
      invariant forall j :: k <= j < addresses.Length ==> addresses[j] == before[j]
    {
      addresses[k] := Unmap(addresses[k]);
      UnmapTwice(before[k]);
      var denied := HardDenied(addresses[k]);
      if denied {
        assert UnmapAll(before)[k] in HARD_DENIED;
        return false;
      }
    }
    assert addresses[..] == UnmapAll(before);
    return true;
  }

  lemma UnmapTwice(a: Addr)
    ensures Unmap(Unmap(a)) == Unmap(a)
  {
  }

  // ----- resolving and authorising ----------------------------------------------------------

  ghost function ResolveTarget(s: Site, ask: Ask): Option<Target> {
    match Normalize(s.guard, ask.raw)
    case None => None
    case Some(url) =>
      match Found(s, Hostname(url.host), ask.lookup)
      case None => None
      case Some(addresses) =>
        if NoneDenied(UnmapAll(addresses)) then Some(Target(url, UnmapAll(addresses), PortNumber(url.host, url.scheme)))
        else None
  }

  method Resolve(s: Site, raw: string, lookup: Option<seq<Addr>>) returns (target: Option<Target>)
    ensures forall policies :: target == ResolveTarget(s, Ask(raw, lookup, policies))
  {
    hide Normalize, UnmapAll, NoneDenied, Hostname, PortNumber, Found;
    var url := Normalize(s.guard, raw);
    if url.None? {
      return None;
    }
    var found := Found(s, Hostname(url.value.host), lookup);
    if found.None? {
      return None;
    }
    var addresses := new Addr[|found.value|](k requires 0 <= k < |found.value| => found.value[k]);
    assert addresses[..] == found.value;
    var ok := CheckAddresses(addresses);
    if !ok {
      return None;
    }
    return Some(Target(url.value, addresses[..], PortNumber(url.value.host, url.value.scheme)));
  }

  /** The target of a request that may go out. */
  ghost function Allowed(s: Site, ask: Ask): Option<Target>
    requires SiteOk(s)
  {
    match ResolveTarget(s, ask)
    case None => None
    case Some(target) =>
      if Verdict(s.nets, ask.policies, target.url, target.addresses).allowed then Some(target) else None
  }

  method Authorize(s: Site, raw: string, lookup: Option<seq<Addr>>,
                   policies: seq<Policy>) returns (target: Option<Target>)
    requires SiteOk(s) && AskOk(Ask(raw, lookup, policies))
    ensures target == Allowed(s, Ask(raw, lookup, policies))
  {
    hide IdnaOk, NetTextOk, AskOk, ResolveTarget, Verdict;
    target := Resolve(s, raw, lookup);
    assert target == ResolveTarget(s, Ask(raw, lookup, policies));
    if target.None? {
      return None;
    }
    ResolvedAddresses(s, Ask(raw, lookup, policies));
    var decision := Evaluate(s.nets, policies, target.value.url, target.value.addresses);
    if !decision.allowed {
      return None;
    }
  }

  lemma ResolvedAddresses(s: Site, ask: Ask)
    requires SiteOk(s) && AskOk(ask) && ResolveTarget(s, ask).Some?
    ensures var addresses := ResolveTarget(s, ask).value.addresses;
            addresses != [] && NoneDenied(addresses) && forall a :: a in addresses ==> ValidAddr(a) && Unmap(a) == a
  {
    hide Normalize, NoneDenied, IdnaOk, NetTextOk, Hostname, PortNumber;
    var target := ResolveTarget(s, ask).value;
    forall a | a in target.addresses
      ensures ValidAddr(a) && Unmap(a) == a
    {
    }
  }

  // ----- the pinned address -----------------------------------------------------------------

  /** The network rules of a policy that turns away what it matches. */
  ghost predicate Excludes(t: NetText, p: Policy, rule: Rule)
    requires NetTextOk(t)
  {
    (p.mode == Blacklist || p.mode == DenyIntranet) && rule in p.rules && rule.kind == Network && rule.value in t.parse
  }

  /** What is known of an address a connection is pinned to under the given policies. */
  ghost predicate Pinnable(t: NetText, policies: seq<Policy>, a: Addr)
    requires NetTextOk(t)
  {
    && Unmap(a) == a && a !in HARD_DENIED
    && policies != []
    && (forall p :: p in policies ==> p.mode != DenyAll && p.mode != OtherMode)
    && (forall p :: p in policies && p.mode == DenyIntranet ==> !NonPublic(a))
    && (forall p, rule :: p in policies && Excludes(t, p, rule) ==> !Cidr.Contains(t.parse[rule.value], a))
  }

  lemma NoObjectionToAddress(t: NetText, p: Policy, target: Url, addresses: seq<Addr>, a: Addr)
    requires NetTextOk(t) && Objection(t, p, target, addresses).None? && a in addresses && Unmap(a) == a
    ensures p.mode != DenyAll && p.mode != OtherMode
    ensures p.mode == DenyIntranet ==> !NonPublic(a)
    ensures forall rule :: Excludes(t, p, rule) ==> !Cidr.Contains(t.parse[rule.value], a)
  {
    hide NonPublic, TargetHost, PrefixMatches, Unmap, Cidr.Contains;
    forall rule | Excludes(t, p, rule)
      ensures !Cidr.Contains(t.parse[rule.value], a)
    {
      assert !Matches(t, rule, target, addresses);
      assert !Covers(t.parse[rule.value], addresses);
    }
  }

  lemma UnobjectedIsPinnable(t: NetText, policies: seq<Policy>, target: Url, addresses: seq<Addr>, a: Addr)
    requires NetTextOk(t) && policies != [] && forall p :: p in policies ==> Objection(t, p, target, addresses).None?
    requires a in addresses && Unmap(a) == a && a !in HARD_DENIED
    ensures Pinnable(t, policies, a)
  {
    hide NonPublic, Cidr.Contains, Objection, Unmap;
    forall p | p in policies
      ensures p.mode != DenyAll && p.mode != OtherMode && (p.mode == DenyIntranet ==> !NonPublic(a))
      ensures forall rule :: Excludes(t, p, rule) ==> !Cidr.Contains(t.parse[rule.value], a)
    {
      NoObjectionToAddress(t, p, target, addresses, a);
    }
  }

  /** Every address of an allowed target, and so the one a connection is pinned to, passed every check. */
  lemma AllowedIsPinnable(s: Site, ask: Ask)
    requires SiteOk(s) && AskOk(ask) && Allowed(s, ask).Some?
    ensures var target := Allowed(s, ask).value;
            target.addresses != [] && forall a :: a in target.addresses ==> Pinnable(s.nets, ask.policies, a)
  {
    hide ResolveTarget, Pinnable, FirstObjection, Objection, Unmap;
    ResolvedAddresses(s, ask);
    var target := Allowed(s, ask).value;
    FirstObjectionIsFirst(s.nets, ask.policies, target.url, target.addresses);
    forall a | a in target.addresses
      ensures Pinnable(s.nets, ask.policies, a)
    {
      UnobjectedIsPinnable(s.nets, ask.policies, target.url, target.addresses, a);
    }
  }

  // ----- dialling ---------------------------------------------------------------------------

  type Id = nat

  datatype UpstreamKind = HttpProxy | Socks5 | OtherProxy

  /** `opens` is whether the stored password, if any, decrypts. */
  datatype Upstream = Upstream(kind: UpstreamKind, enabled: bool, opens: bool)

  datatype Grants = Grants(
    restricted: bool, directUsers: set<Id>, directGroups: set<Id>,
    upstreams: map<Id, Upstream>, userUpstreams: set<(Id, Id)>, groupUpstreams: set<(Id, Id)>,
    members: set<(Id, Id)>)

  predicate DirectAllowed(g: Grants, user: Id) {
    !g.restricted || user in g.directUsers || exists m :: m in g.members && m.0 == user && m.1 in g.directGroups
  }

  predicate UpstreamAuthorized(g: Grants, user: Id, upstream: Id) {
    && upstream in g.upstreams && g.upstreams[upstream].enabled
    && ((user, upstream) in g.userUpstreams || exists m :: m in g.members && m.0 == user && (m.1, upstream) in g.groupUpstreams)
  }

  datatype Dial = Direct(address: Addr, port: nat) | Via(upstream: Id, address: Addr, port: nat)

  /** `transport`: how a request for this target leaves, or `None` when it may not. */
  function Transport(g: Grants, user: Id, egress: Option<Id>, target: Target): Option<Dial>
    requires target.addresses != []
  {
    match egress
    case None => if DirectAllowed(g, user) then Some(Direct(target.addresses[0], target.port)) else None
    case Some(upstream) =>
      if !UpstreamAuthorized(g, user, upstream) || !g.upstreams[upstream].opens || g.upstreams[upstream].kind == OtherProxy then
        None
      else
        Some(Via(upstream, target.addresses[0], target.port))
  }

  /** A connection that left as it may: to the first address of a target outside Tvpn, which is pinnable, over the
      context's own egress, and only while the user holds a grant for it. */
  ghost predicate Sound(s: Site, policies: seq<Policy>, g: Grants, user: Id, egress: Option<Id>, target: Target,
                        dial: Dial)
    requires SiteOk(s)
  {
    && Outside(s.guard, target.url)
    && target.addresses != [] && dial.address == target.addresses[0] && Pinnable(s.nets, policies, dial.address)
    && dial.port == PortNumber(target.url.host, target.url.scheme)
    && match egress
       case None => dial.Direct? && DirectAllowed(g, user)
       case Some(upstream) => dial.Via? && dial.upstream == upstream && UpstreamAuthorized(g, user, upstream)
  }

  /** One plain HTTP request: whatever the policies, the DNS and the grants are, a dial that happens is sound. */
  lemma EveryDialIsSound(s: Site, ask: Ask, g: Grants, user: Id, egress: Option<Id>)
    requires SiteOk(s) && AskOk(ask) && Allowed(s, ask).Some?
    ensures var target := Allowed(s, ask).value;
            target.addresses != []
            && match Transport(g, user, egress, target)
               case None => true
               case Some(dial) => Sound(s, ask.policies, g, user, egress, target, dial)
  {
    hide Pinnable, NoneDenied, DirectAllowed, UpstreamAuthorized, Verdict, Outside, Normalize;
    AllowedIsPinnable(s, ask);
    NormalizedIsOutside(s.guard, ask.raw);
  }

  /** The dial of one plain HTTP request, if there is one. */
  ghost function DialFor(s: Site, ask: Ask, g: Grants, user: Id, egress: Option<Id>): Option<Dial>
    requires SiteOk(s) && AskOk(ask)
  {
    match Allowed(s, ask)
    case None => None
    case Some(target) =>
      ResolvedAddresses(s, ask);
      Transport(g, user, egress, target)
  }

  /** What the host stands for: an address, or what the DNS answered. */
  function Answered(s: Site, host: string, lookup: Option<seq<Addr>>): seq<Addr> {
    if host in s.literals then [s.literals[host]] else if lookup.Some? then lookup.value else []
  }

  /** The user may go out this way: directly if that is not restricted, or granted to the user or a group of theirs; over
      an upstream that is enabled, is of a known kind, has a password that opens, and is granted likewise. */
  ghost predicate Granted(g: Grants, user: Id, egress: Option<Id>) {
    match egress
    case None => g.restricted ==> user in g.directUsers || exists group :: (user, group) in g.members && group in g.directGroups
    case Some(u) =>
      && u in g.upstreams && g.upstreams[u].enabled && g.upstreams[u].opens
      && (g.upstreams[u].kind == HttpProxy || g.upstreams[u].kind == Socks5)
      && ((user, u) in g.userUpstreams || exists group :: (user, group) in g.members && (group, u) in g.groupUpstreams)
  }

  /** A request goes out if and only if the guard accepts its URL, its host stands for some address and for none of the
      four that are always denied, the policies permit it, and the user holds a grant; and then it goes to the first of
      those addresses, unmapped, and the URL's port, over the context's own egress. */
  lemma DialsExactly(s: Site, ask: Ask, g: Grants, user: Id, egress: Option<Id>)
    requires SiteOk(s) && AskOk(ask)
    ensures DialFor(s, ask, g, user, egress)
            == match Normalize(s.guard, ask.raw)
               case None => None
               case Some(url) =>
                 var found := Answered(s, Hostname(url.host), ask.lookup);
                 if found != []
                    && (forall a :: a in found ==>
                          Unmap(a) !in {V4(0xA9FE_A9FE), V4(0xA9FE_AA02), V4(0x6464_64C8), V6(0xFD00_0EC2_0000_0000_0000_0000_0000_0254)})
                    && Permitted(s.nets, ask.policies, url, found) && Granted(g, user, egress)
                 then
                   var (address, port) := (Unmap(found[0]), PortNumber(url.host, url.scheme));
                   Some(if egress.None? then Direct(address, port) else Via(egress.value, address, port))
                 else None
  {
    hide Normalize, IdnaOk, NetTextOk, Hostname, PortNumber, Permitted, Granted, Verdict, DirectAllowed, UpstreamAuthorized, Unmap;
    GrantedExactly(g, user, egress);
    match Normalize(s.guard, ask.raw)
    case None =>
    case Some(url) =>
      var found := Answered(s, Hostname(url.host), ask.lookup);
      if found != [] {
        UnmappedAlike(s, ask, url);
        assert UnmapAll(found)[0] == Unmap(found[0]);
      }
  }

  lemma GrantedExactly(g: Grants, user: Id, egress: Option<Id>)
    ensures match egress
            case None => Granted(g, user, egress) <==> DirectAllowed(g, user)
            case Some(u) => Granted(g, user, egress)
                            <==> UpstreamAuthorized(g, user, u) && g.upstreams[u].opens && g.upstreams[u].kind != OtherProxy
  {
  }

  /** Checking the unmapped addresses is checking them as they were answered. */
  lemma UnmappedAlike(s: Site, ask: Ask, url: Url)
    requires SiteOk(s) && AskOk(ask) && Normalize(s.guard, ask.raw) == Some(url)
    requires Answered(s, Hostname(url.host), ask.lookup) != []
    ensures var found := Answered(s, Hostname(url.host), ask.lookup);
            && Found(s, Hostname(url.host), ask.lookup).Some?
            && UnmapAll(Found(s, Hostname(url.host), ask.lookup).value) == UnmapAll(found)
            && (NoneDenied(UnmapAll(found)) <==>
                  forall a :: a in found ==>
                    Unmap(a) !in {V4(0xA9FE_A9FE), V4(0xA9FE_AA02), V4(0x6464_64C8), V6(0xFD00_0EC2_0000_0000_0000_0000_0000_0254)})
            && (Verdict(s.nets, ask.policies, url, UnmapAll(found)).allowed <==> Permitted(s.nets, ask.policies, url, found))
  {
    hide Normalize, IdnaOk, NetTextOk, Hostname, PortNumber, Permitted, Verdict, SameAddresses;
    var found := Answered(s, Hostname(url.host), ask.lookup);
    forall a
      ensures Unmap(Unmap(a)) == Unmap(a)
    {
      UnmapTwice(a);
    }
    hide Unmap;
    assert SameAddresses(found, UnmapAll(found)) by { UnmapSame(found); }
    MappedAddressesJudgedAlike(s.nets, ask.policies, url, found, UnmapAll(found));
    VerdictDecides(s.nets, ask.policies, url, found);
    DeniedUnmapped(found);
  }

  lemma UnmapSame(addresses: seq<Addr>)
    ensures SameAddresses(addresses, UnmapAll(addresses))
  {
    var all := UnmapAll(addresses);
    forall u
      ensures u in Unmapped(addresses) <==> u in Unmapped(all)
    {
      if a :| a in addresses && u == Unmap(a) {
        var k :| 0 <= k < |addresses| && addresses[k] == a;
        UnmapTwice(a);
        assert all[k] in all && Unmap(all[k]) == u;
      }
      if b :| b in all && u == Unmap(b) {
        var k :| 0 <= k < |all| && all[k] == b;
        UnmapTwice(addresses[k]);
        assert addresses[k] in addresses && Unmap(addresses[k]) == u;
      }
    }
  }

  lemma DeniedUnmapped(addresses: seq<Addr>)
    ensures NoneDenied(UnmapAll(addresses)) <==>
              forall a :: a in addresses ==>
                Unmap(a) !in {V4(0xA9FE_A9FE), V4(0xA9FE_AA02), V4(0x6464_64C8), V6(0xFD00_0EC2_0000_0000_0000_0000_0000_0254)}
  {
    hide Unmap;
    var all := UnmapAll(addresses);
    forall a | a in addresses
      ensures Unmap(a) in all
    {
      var k :| 0 <= k < |addresses| && addresses[k] == a;
      assert all[k] in all;
    }
    forall b | b in all
      ensures exists a :: a in addresses && Unmap(a) == b
    {
      var k :| 0 <= k < |all| && all[k] == b;
      assert addresses[k] in addresses;
    }
    assert forall a: Addr :: a in HARD_DENIED <==>
      a in {V4(0xA9FE_A9FE), V4(0xA9FE_AA02), V4(0x6464_64C8), V6(0xFD00_0EC2_0000_0000_0000_0000_0000_0254)};
  }

  /** A script of the redirect loop whose targets all come from `authorize`: `asks[k]` is the call made for the k-th
      redirect, with the DNS and the policies of that moment. */
  ghost predicate FromAuthorize(s: Site, asks: seq<Ask>, script: seq<Exchange<Target>>)
    requires SiteOk(s)
  {
    |asks| == |script| && forall k :: 0 <= k < |script| ==> AskOk(asks[k]) && script[k].next == Allowed(s, asks[k])
  }

  /** Every hop of every multiplexed run: the k-th request is for a target authorised in the same run, under the policies
      in force when it was, and if it is dialled the dial is sound. DNS answers, policies and grants may change from
      hop to hop. */
  lemma EveryHopIsSound(s: Site, first: Ask, asks: seq<Ask>, script: seq<Exchange<Target>>, verb: string, body: seq<byte>,
                        k: nat, g: Grants, user: Id, egress: Option<Id>)
    requires SiteOk(s) && AskOk(first) && Allowed(s, first).Some? && FromAuthorize(s, asks, script)
    requires k < |ServerTrip(script, verb, body, Allowed(s, first).value).hops|
    ensures var target := ServerTrip(script, verb, body, Allowed(s, first).value).hops[k].target;
            k <= |asks| && var ask := if k == 0 then first else asks[k - 1];
            && Allowed(s, ask) == Some(target) && target.addresses != []
            && match Transport(g, user, egress, target)
               case None => true
               case Some(dial) => Sound(s, ask.policies, g, user, egress, target, dial)
  {
    hide Allowed, ServerTrip, Sound, Transport, SiteOk, AskOk;
    AuthorisedHopsOnly(script, verb, body, Allowed(s, first).value);
    var hops := ServerTrip(script, verb, body, Allowed(s, first).value).hops;
    assert k > 0 ==> NextOf(script, k - 1) == Some(hops[k].target);
    var ask := if k == 0 then first else asks[k - 1];
    EveryDialIsSound(s, ask, g, user, egress);
  }

  // ----- which targets a URL prefix matches -------------------------------------------------

  /** The scheme, host, port and leading path of a rule are those of a target, as the guard reads both. */
  predicate SamePlace(g: Config, prefix: Ref, t: Url) {
    && prefix.scheme == t.scheme && prefix.path <= t.path
    && Canonical(Hostname(prefix.host)) in g.idna && g.idna[Canonical(Hostname(prefix.host))] == Hostname(t.host)
    && PortNumber(prefix.host, prefix.scheme) == PortNumber(t.host, t.scheme)
  }

  /** A rule's authority is, but for case, spelled as the guard spells it: the host in its canonical form, and the port
      only where it is not the default one, without leading zeros. */
  predicate Spelled(g: Config, prefix: Ref) {
    var name := Canonical(Hostname(prefix.host));
    name in g.idna
    && Lower(prefix.host) == HostWithPort(g.idna[name], PortNumber(prefix.host, prefix.scheme), prefix.scheme)
  }

  /** A URL-prefix rule matches a target the guard lets through if and only if it names the same scheme, host, port and
      leading path and its authority is spelled as the guard spells it. */
  lemma PrefixMatchesExactly(g: Config, raw: string, value: string)
    requires IdnaOk(g.idna) && Normalize(g, raw).Some?
    ensures PrefixMatches(value, Normalize(g, raw).value)
            <==> ParseRef(value).Some? && SamePlace(g, ParseRef(value).value, Normalize(g, raw).value)
                 && Spelled(g, ParseRef(value).value)
  {
    hide ParseRef, Normalize, Hostname, PortNumber, HostWithPort, Canonical;
    var t := Normalize(g, raw).value;
    NormalAuthority(g, raw);
    if ParseRef(value).Some? {
      var prefix := ParseRef(value).value;
      if Lower(prefix.host) == t.host {
        SameAuthority(g, t, prefix);
      }
    }
  }

  /** What is known of a normalised authority. */
  lemma NormalAuthority(g: Config, raw: string)
    requires IdnaOk(g.idna) && Normalize(g, raw).Some?
    ensures var t := Normalize(g, raw).value; var name := Hostname(t.host);
            && IsWeb(t.scheme) && PlainName(name) && name in g.idna && g.idna[name] == name
            && t.host == HostWithPort(name, PortNumber(t.host, t.scheme), t.scheme) && Lower(t.host) == t.host
  {
    hide Complete, ParseRef, Hostname, PortNumber, IsControlPlane, HostWithPort, Canonical;
    var ref := ParseRef(Complete(raw)).value;
    var name := g.idna[Canonical(Hostname(ref.host))];
    assert PlainName(name);
    NormalizedParts(g, ref.scheme, Hostname(ref.host), PortNumber(ref.host, ref.scheme), ref.path, ref.query);
    LowerAuthority(name, PortNumber(ref.host, ref.scheme), ref.scheme);
  }

  lemma LowerAuthority(name: string, port: nat, scheme: string)
    requires PlainName(name)
    ensures Lower(HostWithPort(name, port, scheme)) == HostWithPort(name, port, scheme)
  {
    hide Itoa;
    var digits := Itoa(port);
    DigitsLower(digits);
    assert Lower(name + ":" + digits) == Lower(name) + ":" + Lower(digits);
  }

  lemma SameAuthority(g: Config, t: Url, prefix: Ref)
    requires Lower(prefix.host) == t.host && PlainName(Hostname(t.host))
    ensures Canonical(Hostname(prefix.host)) == Hostname(t.host)
    ensures forall scheme :: PortNumber(prefix.host, scheme) == PortNumber(t.host, scheme)
  {
    hide Hostname, Port;
    HostnameLower(prefix.host);
    var name := Hostname(t.host);
    assert name[|name| - 1..] == [name[|name| - 1]];
  }

  /** So a rule spelled otherwise, with a default port, an empty one or one with leading zeros, matches no target at
      all. */
  lemma PortSpelledOtherwiseNeverMatches(g: Config, raw: string, value: string)
    requires IdnaOk(g.idna) && Normalize(g, raw).Some? && ParseRef(value).Some?
    requires var prefix := ParseRef(value).value;
             && Last(prefix.host, ':').Some? && AllDigits(prefix.host[Last(prefix.host, ':').value + 1..])
             && (Port(prefix.host) == "" || Port(prefix.host)[0] == '0' || Atoi(Port(prefix.host)) == DefaultPort(prefix.scheme))
    ensures !PrefixMatches(value, Normalize(g, raw).value)
  {
    hide ParseRef, Normalize, Hostname, PortNumber, HostWithPort, Atoi, AllDigits, Last, Port;
    var t, prefix := Normalize(g, raw).value, ParseRef(value).value;
    if PrefixMatches(value, t) {
      NormalAuthority(g, raw);
      NormalizedIsOutside(g, raw);
      LastLower(prefix.host, ':');
      HostnameLower(prefix.host);
      SpelledPort(Hostname(t.host), PortNumber(t.host, t.scheme), t.scheme);
    }
  }

  /** A port in a normalised authority is written in full, and is not the default one. */
  lemma SpelledPort(name: string, port: nat, scheme: string)
    requires PlainName(name) && IsWeb(scheme)
    ensures var h := HostWithPort(name, port, scheme);
            Last(h, ':').Some? ==> Port(h) != "" && (Port(h)[0] == '0' ==> port == 0) && Atoi(Port(h)) == port != DefaultPort(scheme)
  {
    hide Itoa, Atoi, AllDigits;
    if port == DefaultPort(scheme) {
      assert Last(name, ':').None?;
    } else {
      AtoiInvertsItoa(port);
      NoLeadingZero(port);
      SplitHostPort(name, Itoa(port));
      assert JoinHostPort(name, port) == name + [':'] + Itoa(port);
    }
  }

  lemma {:induction false} NoLeadingZero(n: nat)
    ensures Itoa(n)[0] == '0' ==> n == 0
  {
    if n >= 10 {
      NoLeadingZero(n / 10);
    }
  }

  /** The guard drops a default port from the authority, so a URL-prefix rule that spells it out matches no target. */
  lemma ExplicitDefaultPortNeverMatches(s: Site, raw: string, value: string)
    requires IdnaOk(s.guard.idna) && Normalize(s.guard, raw).Some? && ParseRef(value).Some?
    requires var prefix := ParseRef(value).value;
             Port(prefix.host) != "" && Atoi(Port(prefix.host)) == DefaultPort(prefix.scheme)
    ensures !PrefixMatches(value, Normalize(s.guard, raw).value)
  {
    hide ParseRef, Normalize, Hostname, PortNumber, HostWithPort, PrefixMatches;
    PortSpelledOtherwiseNeverMatches(s.guard, raw, value);
  }

  /** Every kind of rule against a target the guard lets through, each said in its own terms: the host itself, its last
      labels, the interval of a network, the place and spelling of a URL prefix. */
  lemma RuleMatchesExactly(g: Config, t: NetText, raw: string, rule: Rule, addresses: seq<Addr>)
    requires IdnaOk(g.idna) && NetTextOk(t) && Normalize(g, raw).Some?
    ensures var target := Normalize(g, raw).value; var name := Hostname(target.host);
            Matches(t, rule, target, addresses)
            <==> match rule.kind
                 case ExactHost => name == rule.value
                 case DomainSuffix =>
                   var (labels, last) := (Split(name, '.'), Split(rule.value, '.'));
                   |last| <= |labels| && labels[|labels| - |last|..] == last
                 case Network =>
                   rule.value in t.parse
                   && exists a :: a in addresses && InNetwork(t.parse[rule.value], Unmap(a))
                 case UrlPrefix =>
                   ParseRef(rule.value).Some? && SamePlace(g, ParseRef(rule.value).value, target) && Spelled(g, ParseRef(rule.value).value)
                 case OtherKind => false
  {
    hide Normalize, Hostname, PortNumber, ParseRef, Split, PrefixMatches, SamePlace, Spelled, Cidr.Contains, InNetwork, Unmap, IdnaOk;
    var target := Normalize(g, raw).value;
    match rule.kind
    case UrlPrefix => PrefixMatchesExactly(g, raw, rule.value);
    case Network =>
      if rule.value in t.parse {
        forall a
          ensures Cidr.Contains(t.parse[rule.value], a) <==> InNetwork(t.parse[rule.value], a)
        {
          InNetworkExactly(t.parse[rule.value], a);
        }
      }
    case OtherKind =>
    case _ =>
      NormalAuthority(g, raw);
      NameIsTargetHost(target);
      AtOrBelowIsLabelwise(Hostname(target.host), rule.value);
  }

  /** An address of the network's family in the interval its masked address begins. */
  ghost predicate InNetwork(p: Prefix, a: Addr)
    requires ValidPrefix(p)
  {
    SameFamily(p.addr, a) && Masked(p).addr.bits <= a.bits < Masked(p).addr.bits + Size(p)
  }

  lemma InNetworkExactly(p: Prefix, a: Addr)
    requires ValidPrefix(p)
    ensures Cidr.Contains(p, a) <==> InNetwork(p, a)
  {
    hide Cidr.Contains, Masked, Size;
    ContainsIsInterval(p, a);
  }

  lemma NameIsTargetHost(target: Url)
    requires PlainName(Hostname(target.host))
    ensures TargetHost(target) == Hostname(target.host)
  {
    hide Hostname;
    var name := Hostname(target.host);
    assert name[|name| - 1..] == [name[|name| - 1]];
  }
}

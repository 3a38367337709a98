/** Access policies: a list of policies is asked in order and must agree unanimously. */
module Policy {
  import opened Wrappers
  import opened Text
  import opened Cidr
  import opened Urls

  datatype Kind = ExactHost | DomainSuffix | Network | UrlPrefix | OtherKind

  datatype Rule = Rule(kind: Kind, value: string)

  datatype Mode = DenyIntranet | Whitelist | Blacklist | DenyAll | OtherMode

  datatype Policy = Policy(id: nat, mode: Mode, rules: seq<Rule>)

  datatype Reason =
    | NoPolicy | DeniesAll | NotWhitelisted | Blacklisted | IntranetAddress | CustomIntranet | InvalidPolicy | Allowed

  datatype Decision = Decision(allowed: bool, reason: Reason, policy: Option<nat>)

  /** `netip.ParsePrefix` and `Prefix.String` on the texts and networks that occur. */
  datatype NetText = NetText(parse: map<string, Prefix>, text: map<Prefix, string>)

  /** What is assumed of them: parsing yields valid prefixes, and reads back what was printed for a masked one. */
  ghost predicate NetTextOk(t: NetText) {
    forall s :: s in t.parse ==>
      ValidPrefix(t.parse[s]) && var m := Masked(t.parse[s]); m in t.text && t.text[m] in t.parse && t.parse[t.text[m]] == m
  }

  // ----- one rule ---------------------------------------------------------------------------

  function TargetHost(target: Url): string {
    Lower(TrimSuffix(Hostname(target.host), "."))
  }

  predicate EqualFold(a: string, b: string) {
    Lower(a) == Lower(b)
  }

  predicate PrefixMatches(value: string, target: Url) {
    match ParseRef(value)
    case None => false
    case Some(prefix) => target.scheme == prefix.scheme && EqualFold(target.host, prefix.host) && prefix.path <= target.path
  }

  /** Some address, unmapped, lies in the network. */
  ghost predicate Covers(p: Prefix, addresses: seq<Addr>)
    requires ValidPrefix(p)
  {
    exists a :: a in addresses && Contains(p, Unmap(a))
  }

  ghost predicate Matches(t: NetText, rule: Rule, target: Url, addresses: seq<Addr>)
    requires NetTextOk(t)
  {
    match rule.kind
    case ExactHost => TargetHost(target) == rule.value
    case DomainSuffix => AtOrBelow(TargetHost(target), rule.value)
    case UrlPrefix => PrefixMatches(rule.value, target)
    case Network => rule.value in t.parse && Covers(t.parse[rule.value], addresses)
    case OtherKind => false
  }

  method Match(t: NetText, rule: Rule, target: Url, addresses: seq<Addr>) returns (r: bool)
    requires NetTextOk(t)
    ensures r <==> Matches(t, rule, target, addresses)
  {
    var host := Lower(TrimSuffix(Hostname(target.host), "."));
    match rule.kind {
      case ExactHost =>
        return host == rule.value;
      case DomainSuffix =>
        return host == rule.value || HasSuffix(host, "." + rule.value);
      case UrlPrefix =>
        return PrefixMatches(rule.value, target);
      case Network =>
        if rule.value !in t.parse {
          return false;
        }
        var prefix := t.parse[rule.value];
        for k := 0 to |addresses|
          invariant forall j :: 0 <= j < k ==> !Contains(prefix, Unmap(addresses[j]))
        {
          if Contains(prefix, Unmap(addresses[k])) {
            return true;
          }
        }
        return false;
      case OtherKind =>
        return false;
    }
  }

  method MatchesAny(t: NetText, rules: seq<Rule>, target: Url, addresses: seq<Addr>) returns (r: bool)
    requires NetTextOk(t)
    ensures r <==> exists rule :: rule in rules && Matches(t, rule, target, addresses)
  {
    hide Matches, NetTextOk;
    for k := 0 to |rules|
      invariant forall j :: 0 <= j < k ==> !Matches(t, rules[j], target, addresses)
    {
      var matched := Match(t, rules[k], target, addresses);
      if matched {
        return true;
      }
    }
    return false;
  }

  // ----- the conjunction --------------------------------------------------------------------

  /** Some rule of the policy matches. */
  ghost predicate RuleMatches(t: NetText, p: Policy, target: Url, addresses: seq<Addr>)
    requires NetTextOk(t)
  {
    exists rule :: rule in p.rules && Matches(t, rule, target, addresses)
  }

  ghost predicate Intranet(addresses: seq<Addr>) {
    exists a :: a in addresses && NonPublic(a)
  }

  /** Why a single policy turns the target away, if it does. */
  ghost function Objection(t: NetText, p: Policy, target: Url, addresses: seq<Addr>): Option<Reason>
    requires NetTextOk(t)
  {
    var matched := RuleMatches(t, p, target, addresses);
    match p.mode
    case DenyAll => Some(DeniesAll)
    case Whitelist => if matched then None else Some(NotWhitelisted)
    case Blacklist => if matched then Some(Blacklisted) else None
    case DenyIntranet =>
      if Intranet(addresses) then Some(IntranetAddress)
      else if matched then Some(CustomIntranet) else None
    case OtherMode => Some(InvalidPolicy)
  }

  ghost function FirstObjection(t: NetText, policies: seq<Policy>, target: Url, addresses: seq<Addr>): Decision
    requires NetTextOk(t)
  {
    if policies == [] then Decision(true, Allowed, None)
    else
      match Objection(t, policies[0], target, addresses)
      case Some(reason) => Decision(false, reason, Some(policies[0].id))
      case None => FirstObjection(t, policies[1..], target, addresses)
  }

  ghost function Verdict(t: NetText, policies: seq<Policy>, target: Url, addresses: seq<Addr>): Decision
    requires NetTextOk(t)
  {
    if policies == [] then Decision(false, NoPolicy, None) else FirstObjection(t, policies, target, addresses)
  }

  /** What a list must be for a target to be allowed: not empty, without deny_all and without a mode that is not known;
      every whitelist matches, no blacklist and no deny_intranet policy does, and under deny_intranet no address is
      non-public. */
  ghost predicate Permitted(t: NetText, policies: seq<Policy>, target: Url, addresses: seq<Addr>)
    requires NetTextOk(t)
  {
    && policies != []
    && (forall p :: p in policies ==> p.mode != DenyAll && p.mode != OtherMode)
    && (forall p :: p in policies && p.mode == Whitelist ==> RuleMatches(t, p, target, addresses))
    && (forall p :: p in policies && (p.mode == Blacklist || p.mode == DenyIntranet) ==> !RuleMatches(t, p, target, addresses))
    && (forall p :: p in policies && p.mode == DenyIntranet ==> !Intranet(addresses))
  }

  /** A policy turns the target away for this reason. */
  ghost predicate DeniesFor(t: NetText, p: Policy, target: Url, addresses: seq<Addr>, reason: Reason)
    requires NetTextOk(t)
  {
    || (p.mode == DenyAll && reason == DeniesAll)
    || (p.mode == Whitelist && !RuleMatches(t, p, target, addresses) && reason == NotWhitelisted)
    || (p.mode == Blacklist && RuleMatches(t, p, target, addresses) && reason == Blacklisted)
    || (p.mode == DenyIntranet && Intranet(addresses) && reason == IntranetAddress)
    || (p.mode == DenyIntranet && !Intranet(addresses) && RuleMatches(t, p, target, addresses) && reason == CustomIntranet)
    || (p.mode == OtherMode && reason == InvalidPolicy)
  }

  /** A decision as the modes and rules of the list make it: allowed, or denied by the first policy that denies, for its
      reason. */
  ghost predicate Decides(t: NetText, policies: seq<Policy>, target: Url, addresses: seq<Addr>, d: Decision)
    requires NetTextOk(t)
  {
    && (d.allowed <==> Permitted(t, policies, target, addresses))
    && (d.allowed ==> d.reason == Allowed && d.policy == None)
    && (policies == [] ==> d.reason == NoPolicy && d.policy == None)
    && (!d.allowed && policies != [] ==>
          exists k :: 0 <= k < |policies| && DeniesFor(t, policies[k], target, addresses, d.reason) && d.policy == Some(policies[k].id)
            && forall j, reason :: 0 <= j < k ==> !DeniesFor(t, policies[j], target, addresses, reason))
  }

  lemma ObjectionIs(t: NetText, p: Policy, target: Url, addresses: seq<Addr>)
    requires NetTextOk(t)
    ensures forall reason :: Objection(t, p, target, addresses) == Some(reason) <==> DeniesFor(t, p, target, addresses, reason)
  {
    hide NetTextOk, Matches, NonPublic;
  }

  lemma VerdictDecides(t: NetText, policies: seq<Policy>, target: Url, addresses: seq<Addr>)
    requires NetTextOk(t)
    ensures Decides(t, policies, target, addresses, Verdict(t, policies, target, addresses))
  {
    hide NetTextOk, Objection, RuleMatches, Intranet, FirstObjection;
    var d := Verdict(t, policies, target, addresses);
    forall p
      ensures forall reason :: Objection(t, p, target, addresses) == Some(reason) <==> DeniesFor(t, p, target, addresses, reason)
    {
      ObjectionIs(t, p, target, addresses);
    }
    if policies != [] {
      FirstObjectionIsFirst(t, policies, target, addresses);
      if d.allowed {
        forall p | p in policies
          ensures forall reason :: !DeniesFor(t, p, target, addresses, reason)
        {
          assert Objection(t, p, target, addresses).None?;
        }
        NoDenierPermits(t, policies, target, addresses);
      } else {
        var k :| 0 <= k < |policies|
                 && Objection(t, policies[k], target, addresses) == Some(d.reason) && d.policy == Some(policies[k].id)
                 && forall j :: 0 <= j < k ==> Objection(t, policies[j], target, addresses).None?;
        assert DeniesFor(t, policies[k], target, addresses, d.reason);
        assert !Permitted(t, policies, target, addresses);
      }
    }
  }

  lemma NoDenierPermits(t: NetText, policies: seq<Policy>, target: Url, addresses: seq<Addr>)
    requires NetTextOk(t) && policies != []
    requires forall p :: p in policies ==> forall reason :: !DeniesFor(t, p, target, addresses, reason)
    ensures Permitted(t, policies, target, addresses)
  {
    hide NetTextOk, RuleMatches, Intranet;
    forall p | p in policies
      ensures p.mode != DenyAll && p.mode != OtherMode
      ensures p.mode == Whitelist ==> RuleMatches(t, p, target, addresses)
      ensures p.mode == Blacklist || p.mode == DenyIntranet ==> !RuleMatches(t, p, target, addresses)
      ensures p.mode == DenyIntranet ==> !Intranet(addresses)
    {
      assert forall reason :: !DeniesFor(t, p, target, addresses, reason);
      assert !DeniesFor(t, p, target, addresses, DeniesAll) && !DeniesFor(t, p, target, addresses, NotWhitelisted);
      assert !DeniesFor(t, p, target, addresses, Blacklisted) && !DeniesFor(t, p, target, addresses, IntranetAddress);
      assert !DeniesFor(t, p, target, addresses, CustomIntranet) && !DeniesFor(t, p, target, addresses, InvalidPolicy);
    }
  }

  method AnyNonPublic(addresses: seq<Addr>) returns (r: bool)
    requires forall a :: a in addresses ==> ValidAddr(a)
    ensures r <==> Intranet(addresses)
  {
    hide NonPublic;
    for k := 0 to |addresses|
      invariant forall j :: 0 <= j < k ==> !NonPublic(addresses[j])
    {
      var hit := IsNonPublic(addresses[k]);
      if hit {
        return true;
      }
    }
    return false;
  }

  method Evaluate(t: NetText, policies: seq<Policy>, target: Url, addresses: seq<Addr>) returns (d: Decision)
    requires NetTextOk(t) && forall a :: a in addresses ==> ValidAddr(a)
    ensures d == Verdict(t, policies, target, addresses) && Decides(t, policies, target, addresses, d)
  {
    hide NetTextOk, NonPublic, Decides;
    VerdictDecides(t, policies, target, addresses);
    if |policies| == 0 {
      return Decision(false, NoPolicy, None);
    }
    for k := 0 to |policies|
      invariant FirstObjection(t, policies, target, addresses) == FirstObjection(t, policies[k..], target, addresses)
    {
      assert policies[k..][1..] == policies[k + 1..];
      var item := policies[k];
      var matched := MatchesAny(t, item.rules, target, addresses);
      match item.mode {
        case DenyAll =>
          return Decision(false, DeniesAll, Some(item.id));
        case Whitelist =>
          if !matched {
            return Decision(false, NotWhitelisted, Some(item.id));
          }
        case Blacklist =>
          if matched {
            return Decision(false, Blacklisted, Some(item.id));
          }
        case DenyIntranet =>
          var intranet := AnyNonPublic(addresses);
          if intranet {
            return Decision(false, IntranetAddress, Some(item.id));
          }
          if matched {
            return Decision(false, CustomIntranet, Some(item.id));
          }
        case OtherMode =>
          return Decision(false, InvalidPolicy, Some(item.id));
      }
    }
    return Decision(true, Allowed, None);
  }

  // ----- what the conjunction promises ------------------------------------------------------

  /** The verdict names the first policy that objects, and allows only if none does. */
  lemma {:induction false} FirstObjectionIsFirst(t: NetText, policies: seq<Policy>, target: Url, addresses: seq<Addr>)
    requires NetTextOk(t)
    ensures var d := FirstObjection(t, policies, target, addresses);
            if d.allowed then forall p :: p in policies ==> Objection(t, p, target, addresses).None?
            else exists k :: 0 <= k < |policies|
                   && Objection(t, policies[k], target, addresses) == Some(d.reason) && d.policy == Some(policies[k].id)
                   && forall j :: 0 <= j < k ==> Objection(t, policies[j], target, addresses).None?
    ensures var d := FirstObjection(t, policies, target, addresses); d.allowed ==> d.reason == Allowed && d.policy == None
  {
    hide NetTextOk, Objection;
    if policies != [] && Objection(t, policies[0], target, addresses).None? {
      FirstObjectionIsFirst(t, policies[1..], target, addresses);
      var d := FirstObjection(t, policies[1..], target, addresses);
      if d.allowed {
        assert policies == [policies[0]] + policies[1..];
      } else {
        var k :| 0 <= k < |policies[1..]|
                 && Objection(t, policies[1..][k], target, addresses) == Some(d.reason) && d.policy == Some(policies[1..][k].id)
                 && forall j :: 0 <= j < k ==> Objection(t, policies[1..][j], target, addresses).None?;
        forall j | 0 <= j < k + 1
          ensures Objection(t, policies[j], target, addresses).None?
        {
          assert j > 0 ==> policies[j] == policies[1..][j - 1];
        }
        assert policies[k + 1] == policies[1..][k];
      }
    }
  }

  lemma Alone(t: NetText, p: Policy, target: Url, addresses: seq<Addr>)
    requires NetTextOk(t)
    ensures Verdict(t, [p], target, addresses)
            == match Objection(t, p, target, addresses)
               case Some(reason) => Decision(false, reason, Some(p.id))
               case None => Decision(true, Allowed, None)
  {
    hide NetTextOk, Objection;
    assert [p][1..] == [];
    assert FirstObjection(t, [], target, addresses) == Decision(true, Allowed, None);
  }

  /** A list allows a target if and only if it is not empty and each of its policies allows it on its own. */
  lemma AllowsIffEachAllows(t: NetText, policies: seq<Policy>, target: Url, addresses: seq<Addr>)
    requires NetTextOk(t)
    ensures Verdict(t, policies, target, addresses).allowed
            <==> policies != [] && forall p :: p in policies ==> Verdict(t, [p], target, addresses).allowed
  {
    hide NetTextOk, Objection;
    FirstObjectionIsFirst(t, policies, target, addresses);
    forall p | p in policies
      ensures Verdict(t, [p], target, addresses).allowed <==> Objection(t, p, target, addresses).None?
    {
      Alone(t, p, target, addresses);
    }
  }

  /** A denial comes from the first policy that denies on its own, with the reason it gives on its own. */
  lemma DenialNamesFirstDenier(t: NetText, policies: seq<Policy>, target: Url, addresses: seq<Addr>)
    requires NetTextOk(t) && policies != [] && !Verdict(t, policies, target, addresses).allowed
    ensures exists k :: 0 <= k < |policies|
              && Verdict(t, [policies[k]], target, addresses) == Verdict(t, policies, target, addresses)
              && Verdict(t, policies, target, addresses).policy == Some(policies[k].id)
              && forall j :: 0 <= j < k ==> Verdict(t, [policies[j]], target, addresses).allowed
  {
    hide NetTextOk, Objection;
    FirstObjectionIsFirst(t, policies, target, addresses);
    var d := FirstObjection(t, policies, target, addresses);
    var k :| 0 <= k < |policies|
             && Objection(t, policies[k], target, addresses) == Some(d.reason) && d.policy == Some(policies[k].id)
             && forall j :: 0 <= j < k ==> Objection(t, policies[j], target, addresses).None?;
    forall j | 0 <= j < k
      ensures Verdict(t, [policies[j]], target, addresses).allowed
    {
      Alone(t, policies[j], target, addresses);
    }
    Alone(t, policies[k], target, addresses);
  }

  /** Order and repetition of the policies do not matter to whether a target is allowed. */
  lemma OnlyTheSetMatters(t: NetText, left: seq<Policy>, right: seq<Policy>, target: Url, addresses: seq<Addr>)
    requires NetTextOk(t) && forall p :: p in left <==> p in right
    ensures Verdict(t, left, target, addresses).allowed <==> Verdict(t, right, target, addresses).allowed
  {
    hide NetTextOk, FirstObjection;
    AllowsIffEachAllows(t, left, target, addresses);
    AllowsIffEachAllows(t, right, target, addresses);
    assert left != [] ==> left[0] in right;
    assert right != [] ==> right[0] in left;
  }

  /** A further policy never turns a denial into an allow, except when it is the first one. */
  lemma MorePoliciesNeverAllowMore(t: NetText, front: seq<Policy>, p: Policy, back: seq<Policy>, target: Url,
                                   addresses: seq<Addr>)
    requires NetTextOk(t) && front + back != []
    requires Verdict(t, front + [p] + back, target, addresses).allowed
    ensures Verdict(t, front + back, target, addresses).allowed
  {
    hide NetTextOk, FirstObjection, Verdict;
    AllowsIffEachAllows(t, front + [p] + back, target, addresses);
    AllowsIffEachAllows(t, front + back, target, addresses);
  }

  // ----- addresses --------------------------------------------------------------------------

  /** The same addresses up to order, repetition and the IPv4-mapped spelling. */
  ghost predicate SameAddresses(left: seq<Addr>, right: seq<Addr>) {
    Unmapped(left) == Unmapped(right)
  }

  ghost function Unmapped(addresses: seq<Addr>): set<Addr> {
    set a | a in addresses :: Unmap(a)
  }

  lemma {:induction false} SpellingOfAddresses(t: NetText, policies: seq<Policy>, target: Url, left: seq<Addr>,
                                               right: seq<Addr>)
    requires NetTextOk(t) && SameAddresses(left, right)
    ensures FirstObjection(t, policies, target, left) == FirstObjection(t, policies, target, right)
  {
    hide NetTextOk, Objection, SameAddresses;
    if policies != [] {
      ObjectionUnmaps(t, policies[0], target, left, right);
      SpellingOfAddresses(t, policies[1..], target, left, right);
    }
  }

  lemma ObjectionUnmaps(t: NetText, p: Policy, target: Url, left: seq<Addr>, right: seq<Addr>)
    requires NetTextOk(t) && SameAddresses(left, right)
    ensures Objection(t, p, target, left) == Objection(t, p, target, right)
  {
    hide NetTextOk, Matches, NonPublic, Unmapped;
    if exists a :: a in left && NonPublic(a) {
      NonPublicUnmaps(left, right);
    }
    if exists a :: a in right && NonPublic(a) {
      NonPublicUnmaps(right, left);
    }
    forall rule | rule in p.rules
      ensures Matches(t, rule, target, left) <==> Matches(t, rule, target, right)
    {
      MatchUnmaps(t, rule, target, left, right);
    }
  }

  lemma NonPublicUnmaps(left: seq<Addr>, right: seq<Addr>)
    requires SameAddresses(left, right) && exists a :: a in left && NonPublic(a)
    ensures exists b :: b in right && NonPublic(b)
  {
    hide InTable, IsGlobalUnicast, Unmap;
    var a :| a in left && NonPublic(a);
    assert Unmap(a) in Unmapped(right);
    var b :| b in right && Unmap(b) == Unmap(a);
    assert NonPublic(b);
  }

  lemma MatchUnmaps(t: NetText, rule: Rule, target: Url, left: seq<Addr>, right: seq<Addr>)
    requires NetTextOk(t) && SameAddresses(left, right)
    ensures Matches(t, rule, target, left) <==> Matches(t, rule, target, right)
  {
    hide Covers, TargetHost, AtOrBelow, PrefixMatches, Unmapped;
    if rule.kind == Network && rule.value in t.parse {
      CoversUnmapped(t.parse[rule.value], left);
      CoversUnmapped(t.parse[rule.value], right);
    }
  }

  lemma CoversUnmapped(p: Prefix, addresses: seq<Addr>)
    requires ValidPrefix(p)
    ensures Covers(p, addresses) <==> exists u :: u in Unmapped(addresses) && Contains(p, u)
  {
    hide Contains, Unmap;
    if u :| u in Unmapped(addresses) && Contains(p, u) {
      var a :| a in addresses && Unmap(a) == u;
    }
    if Covers(p, addresses) {
      var a :| a in addresses && Contains(p, Unmap(a));
      assert Unmap(a) in Unmapped(addresses);
    }
  }

  /** The verdict depends on the addresses only up to order, repetition and the IPv4-mapped spelling. */
  lemma MappedAddressesJudgedAlike(t: NetText, policies: seq<Policy>, target: Url, left: seq<Addr>, right: seq<Addr>)
    requires NetTextOk(t) && SameAddresses(left, right)
    ensures Verdict(t, policies, target, left) == Verdict(t, policies, target, right)
  {
    SpellingOfAddresses(t, policies, target, left, right);
  }

  // ----- storing a CIDR rule ----------------------------------------------------------------

  /** The CIDR branch of `ValidateRule`. */
  function StoredNetwork(t: NetText, value: string): Option<string>
    requires NetTextOk(t)
  {
    var trimmed := TrimSpace(value);
    if trimmed == "" || trimmed !in t.parse then None else Some(t.text[Masked(t.parse[trimmed])])
  }

  /** A CIDR rule is stored with its host bits cleared; it matches what the rule as typed matches. */
  lemma StoredNetworkMatchesAlike(t: NetText, value: string, target: Url, addresses: seq<Addr>)
    requires NetTextOk(t) && StoredNetwork(t, value).Some?
    ensures Matches(t, Rule(Network, StoredNetwork(t, value).value), target, addresses)
            <==> Matches(t, Rule(Network, TrimSpace(value)), target, addresses)
  {
    hide Contains, Masked, TrimSpace;
    var p := t.parse[TrimSpace(value)];
    forall a | a in addresses
      ensures Contains(Masked(p), Unmap(a)) <==> Contains(p, Unmap(a))
    {
      MaskingKeepsMeaning(p, Unmap(a));
    }
  }

  /** A CIDR rule matches no target at all if and only if its network lies in the IPv4-mapped block. */
  lemma MatchesNothingExactly(t: NetText, value: string)
    requires NetTextOk(t) && value in t.parse
    ensures (forall target, addresses ::
               (forall a :: a in addresses ==> ValidAddr(a)) ==> !Matches(t, Rule(Network, value), target, addresses))
            <==> Mapped(t.parse[value].addr) && t.parse[value].length >= 96
  {
    var p := t.parse[value];
    assert ValidPrefix(p);
    hide Contains, Mapped, Unmap, NetTextOk;
    AcceptsNothingExactly(p);
    if a :| ValidAddr(a) && Contains(p, Unmap(a)) {
      assert a in [a];
      assert Matches(t, Rule(Network, value), Url("", "", "", ""), [a]);
    }
  }

  /** So a blacklist, or a list of further intranet networks, that holds nothing else excludes nothing by it. */
  lemma MappedBlacklistExcludesNothing(t: NetText, p: Policy, target: Url, addresses: seq<Addr>)
    requires NetTextOk(t) && p.mode.Blacklist? && forall a :: a in addresses ==> ValidAddr(a)
    requires forall rule :: rule in p.rules ==>
               rule.kind == Network && rule.value in t.parse
               && Mapped(t.parse[rule.value].addr) && t.parse[rule.value].length >= 96
    ensures Verdict(t, [p], target, addresses).allowed
  {
    hide Contains, Mapped, Unmap, NetTextOk, Matches;
    forall rule | rule in p.rules
      ensures !Matches(t, rule, target, addresses)
    {
      MatchesNothingExactly(t, rule.value);
    }
    Alone(t, p, target, addresses);
  }
}

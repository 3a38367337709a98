/** What a page assigns to `document.cookie`: `queueCookieWrite` and the endpoint behind it. In compatibility mode the
    writes are chained, each sent when the one before has settled; otherwise each is sent at once. */
module DocumentCookies {
  import opened Wrappers
  import opened Cookies

  /** One assignment, made on a page; `None` is a text that is no cookie. */
  datatype Write = Write(context: ContextId, page: Site, cookie: Option<Cookie>)

  datatype Phase = Waiting | Sent | Landed | Settled

  /** What is done to the jar: by one of these writes when the endpoint runs, or by some other request. */
  datatype Deed = Own(write: nat, now: Time) | Other(save: Save)

  datatype State = State(writes: seq<Write>, phases: seq<Phase>, deeds: seq<Deed>)

  /** A write may settle without having landed: its request failed. One that has settled lands no more. */
  datatype Step = Assign(write: Write) | Send(n: nat) | Land(n: nat, now: Time) | Settle(n: nat) | OtherSave(save: Save)

  function Init(): State {
    State([], [], [])
  }

  predicate Enabled(chained: bool, s: State, step: Step) {
    match step
    case Assign(_) => true
    case Send(n) =>
      n < |s.phases| && s.phases[n].Waiting? && (chained ==> forall k :: 0 <= k < n ==> s.phases[k].Settled?)
    case Land(n, _) => n < |s.phases| && s.phases[n].Sent?
    case Settle(n) => n < |s.phases| && (s.phases[n].Sent? || s.phases[n].Landed?)
    case OtherSave(_) => true
  }

  function Next(chained: bool, s: State, step: Step): State
    requires Enabled(chained, s, step)
  {
    match step
    case Assign(write) => s.(writes := s.writes + [write], phases := s.phases + [Waiting])
    case Send(n) => s.(phases := s.phases[n := Sent])
    case Land(n, now) => s.(phases := s.phases[n := Landed], deeds := s.deeds + [Own(n, now)])
    case Settle(n) => s.(phases := s.phases[n := Settled])
    case OtherSave(save) => s.(deeds := s.deeds + [Other(save)])
  }

  ghost predicate IsRun(chained: bool, s: State, steps: seq<Step>, t: State)
    decreases |steps|
  {
    if steps == [] then t == s
    else Enabled(chained, s, steps[0]) && IsRun(chained, Next(chained, s, steps[0]), steps[1..], t)
  }

  /** `setDocumentCookie`: a text that is no cookie, or an HttpOnly one, is refused. */
  function SavesOf(writes: seq<Write>, d: Deed): seq<Save> {
    match d
    case Other(save) => [save]
    case Own(n, now) =>
      if n < |writes| && writes[n].cookie.Some? && !writes[n].cookie.value.httpOnly
      then [Save(writes[n].context, writes[n].page, writes[n].cookie.value, now)] else []
  }

  function JarAfter(jar: Jar, writes: seq<Write>, deeds: seq<Deed>, suffixes: set<string>): Jar {
    if deeds == [] then jar
    else
      var n := |deeds| - 1;
      ApplyAll(JarAfter(jar, writes, deeds[..n], suffixes), SavesOf(writes, deeds[n]), suffixes)
  }

  /** What the endpoint does to the jar: it saves the cookie for the page's host and path, unless the text is no cookie or
      the cookie claims to be HttpOnly. */
  lemma LandingSaves(jar: Jar, writes: seq<Write>, deeds: seq<Deed>, n: nat, now: Time, suffixes: set<string>)
    requires n < |writes|
    ensures var (before, after) := (JarAfter(jar, writes, deeds, suffixes), JarAfter(jar, writes, deeds + [Own(n, now)], suffixes));
            var w := writes[n];
            if w.cookie.None? || w.cookie.value.httpOnly then after == before
            else after == Apply(before, Save(w.context, w.page, w.cookie.value, now), suffixes)
  {
    hide Apply;
    var all := deeds + [Own(n, now)];
    assert all[..|deeds|] == deeds;
    OneDeed(JarAfter(jar, writes, deeds, suffixes), writes, Own(n, now), suffixes);
  }

  // ----- the chain --------------------------------------------------------------------------

  predicate Done(p: Phase) {
    p.Landed? || p.Settled?
  }

  /** Nothing that has landed waits again. */
  ghost predicate Inv(s: State) {
    && |s.phases| == |s.writes|
    && forall i :: 0 <= i < |s.deeds| && s.deeds[i].Own? ==> s.deeds[i].write < |s.phases| && Done(s.phases[s.deeds[i].write])
  }

  ghost predicate LandsOnce(s: State) {
    forall i, j :: 0 <= i < j < |s.deeds| && s.deeds[i].Own? && s.deeds[j].Own? ==> s.deeds[i].write != s.deeds[j].write
  }

  /** Settled writes, then at most one under way, then waiting ones; and what has landed did so in the order assigned. */
  ghost predicate InOrder(s: State) {
    && (forall i, j :: 0 <= i < j < |s.phases| ==> s.phases[i].Settled? || s.phases[j].Waiting?)
    && forall i, j :: 0 <= i < j < |s.deeds| && s.deeds[i].Own? && s.deeds[j].Own? ==> s.deeds[i].write < s.deeds[j].write
  }

  lemma StepKeeps(chained: bool, s: State, step: Step)
    requires Inv(s) && LandsOnce(s) && Enabled(chained, s, step)
    ensures Inv(Next(chained, s, step)) && LandsOnce(Next(chained, s, step))
    ensures chained && InOrder(s) ==> InOrder(Next(chained, s, step))
  {
  }

  lemma {:induction false} RunKeeps(chained: bool, s: State, steps: seq<Step>, t: State)
    requires Inv(s) && LandsOnce(s) && (chained ==> InOrder(s)) && IsRun(chained, s, steps, t)
    ensures Inv(t) && LandsOnce(t) && (chained ==> InOrder(t))
    decreases |steps|
  {
    hide Inv, LandsOnce, InOrder, Enabled, Next;
    if steps != [] {
      StepKeeps(chained, s, steps[0]);
      RunKeeps(chained, Next(chained, s, steps[0]), steps[1..], t);
    }
  }

  /** In compatibility mode, whatever fails: one write at a time is under way, each lands at most once, and they land in
      the order in which they were assigned. */
  lemma WritesLandInOrder(steps: seq<Step>, t: State)
    requires IsRun(true, Init(), steps, t)
    ensures InOrder(t) && LandsOnce(t)
  {
    RunKeeps(true, Init(), steps, t);
  }

  /** A failed write does not hold up the ones behind it: until every write has settled, one of them can move. */
  lemma ChainNeverStalls(t: State)
    ensures (forall n :: 0 <= n < |t.phases| ==> t.phases[n].Settled?)
            || exists n: nat :: Enabled(true, t, Send(n)) || Enabled(true, t, Settle(n))
  {
    var n := FirstOpen(t.phases);
    if n < |t.phases| {
      assert Enabled(true, t, Send(n)) || Enabled(true, t, Settle(n));
    }
  }

  function FirstOpen(phases: seq<Phase>): (n: nat)
    ensures n <= |phases| && (n < |phases| ==> !phases[n].Settled?) && forall k :: 0 <= k < n ==> phases[k].Settled?
  {
    if phases == [] || !phases[0].Settled? then 0 else 1 + FirstOpen(phases[1..])
  }

  // ----- the jar ----------------------------------------------------------------------------

  /** A deed that concerns a key. */
  predicate Concerns(writes: seq<Write>, d: Deed, key: Key, suffixes: set<string>) {
    var saves := SavesOf(writes, d);
    saves != [] && Touches(saves[0], key, suffixes)
  }

  /** The key holds what the deed put there, or nothing if its cookie came expired. */
  ghost predicate Shows(jar: Jar, writes: seq<Write>, d: Deed, key: Key, suffixes: set<string>)
    requires Concerns(writes, d, key, suffixes)
  {
    var s := SavesOf(writes, d)[0];
    if Expired(s.cookie, s.now) then key !in jar
    else key in jar && jar[key] == EntryOf(s.cookie, PlaceOf(s.context, s.origin, s.cookie, suffixes).value.hostOnly)
  }

  lemma {:induction false} LastDeedShows(jar: Jar, writes: seq<Write>, deeds: seq<Deed>, n: nat, key: Key,
                                         suffixes: set<string>)
    requires n < |deeds| && Concerns(writes, deeds[n], key, suffixes)
    requires forall k :: n < k < |deeds| ==> !Concerns(writes, deeds[k], key, suffixes)
    ensures Shows(JarAfter(jar, writes, deeds, suffixes), writes, deeds[n], key, suffixes)
  {
    hide PlaceOf, Expired, SavesOf;
    var last := |deeds| - 1;
    var before, saves := JarAfter(jar, writes, deeds[..last], suffixes), SavesOf(writes, deeds[last]);
    OneDeed(before, writes, deeds[last], suffixes);
    if n < last {
      LastDeedShows(jar, writes, deeds[..last], n, key, suffixes);
      assert !Concerns(writes, deeds[last], key, suffixes);
    }
  }

  lemma OneDeed(jar: Jar, writes: seq<Write>, d: Deed, suffixes: set<string>)
    ensures var saves := SavesOf(writes, d);
            |saves| <= 1 && ApplyAll(jar, saves, suffixes) == if saves == [] then jar else Apply(jar, saves[0], suffixes)
  {
    hide Apply;
    var saves := SavesOf(writes, d);
    if saves != [] {
      assert saves[..0] == [];
      assert ApplyAll(jar, [], suffixes) == jar;
    }
  }

  /** In compatibility mode, of all the assignments that have landed on a key the latest decides what the jar holds,
      unless another request has saved there since. */
  lemma LatestAssignmentHolds(steps: seq<Step>, t: State, jar: Jar, n: nat, key: Key, suffixes: set<string>)
    requires IsRun(true, Init(), steps, t)
    requires n < |t.deeds| && t.deeds[n].Own? && Concerns(t.writes, t.deeds[n], key, suffixes)
    requires forall k :: 0 <= k < |t.deeds| && t.deeds[k].Own? && Concerns(t.writes, t.deeds[k], key, suffixes) ==>
               t.deeds[k].write <= t.deeds[n].write
    requires forall k :: n < k < |t.deeds| && t.deeds[k].Other? ==> !Concerns(t.writes, t.deeds[k], key, suffixes)
    ensures Shows(JarAfter(jar, t.writes, t.deeds, suffixes), t.writes, t.deeds[n], key, suffixes)
  {
    hide JarAfter, Concerns, IsRun;
    WritesLandInOrder(steps, t);
    LastDeedShows(jar, t.writes, t.deeds, n, key, suffixes);
  }

  /** Without the chain both are sent at once, and the endpoint may run for the second before the first: for any two
      assignments to one key the jar may end up with the older. */
  lemma OlderMayWin(first: Write, second: Write, jar: Jar, key: Key, now: Time, suffixes: set<string>)
    requires Concerns([first, second], Own(0, now), key, suffixes)
    ensures var t := State([first, second], [Settled, Settled], [Own(1, now), Own(0, now)]);
            IsRun(false, Init(), OverlappingSteps(first, second, now), t)
            && Shows(JarAfter(jar, t.writes, t.deeds, suffixes), t.writes, Own(0, now), key, suffixes)
  {
    hide JarAfter, Shows, Concerns;
    OverlappingRun(first, second, now);
    LastDeedShows(jar, [first, second], [Own(1, now), Own(0, now)], 1, key, suffixes);
  }

  lemma OneMoreStep(chained: bool, s: State, s': State, steps: seq<Step>, t: State)
    requires steps != [] && Enabled(chained, s, steps[0]) && IsRun(chained, s', steps[1..], t)
    requires var next := Next(chained, s, steps[0]);
             next.writes == s'.writes && next.phases == s'.phases && next.deeds == s'.deeds
    ensures IsRun(chained, s, steps, t)
  {
    hide Enabled, Next;
  }

  function OverlappingSteps(first: Write, second: Write, now: Time): seq<Step> {
    [Assign(first), Send(0), Assign(second), Send(1), Land(1, now), Settle(1), Land(0, now), Settle(0)]
  }

  function OverlappingStates(first: Write, second: Write, now: Time): seq<State> {
    var (both, one, two) := ([first, second], [Own(1, now)], [Own(1, now), Own(0, now)]);
    [Init(), State([first], [Waiting], []), State([first], [Sent], []), State(both, [Sent, Waiting], []),
     State(both, [Sent, Sent], []), State(both, [Sent, Landed], one), State(both, [Sent, Settled], one),
     State(both, [Landed, Settled], two), State(both, [Settled, Settled], two)]
  }

  lemma OverlappingStep(first: Write, second: Write, now: Time, k: nat)
    requires k < 8
    ensures var (step, states) := (OverlappingSteps(first, second, now)[k], OverlappingStates(first, second, now));
            && Enabled(false, states[k], step)
            && var next := Next(false, states[k], step);
               next.writes == states[k + 1].writes && next.phases == states[k + 1].phases && next.deeds == states[k + 1].deeds
  {
  }

  lemma OverlappingRun(first: Write, second: Write, now: Time)
    ensures IsRun(false, Init(), OverlappingSteps(first, second, now), OverlappingStates(first, second, now)[8])
  {
    hide IsRun, OverlappingSteps, OverlappingStates, Enabled, Next;
    var steps, states := OverlappingSteps(first, second, now), OverlappingStates(first, second, now);
    Lengths(first, second, now);
    Rests(states[8]);
    assert steps[8..] == [];
    for k := 8 downto 0
      invariant IsRun(false, states[k], steps[k..], states[8])
    {
      assert steps[k..][1..] == steps[k + 1..];
      OverlappingStep(first, second, now, k);
      OneMoreStep(false, states[k], states[k + 1], steps[k..], states[8]);
    }
    assert steps[0..] == steps;
  }

  lemma Lengths(first: Write, second: Write, now: Time)
    ensures |OverlappingSteps(first, second, now)| == 8 && |OverlappingStates(first, second, now)| == 9
    ensures OverlappingStates(first, second, now)[0] == Init()
  {
  }

  lemma Rests(t: State)
    ensures IsRun(false, t, [], t)
  {
  }
}

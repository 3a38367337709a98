/** The redirect loop of the server's `muxRoundTrip`, and the one the TypeScript client runs against route URLs.
    A run is replayed from its script: what each request in turn was answered, and which target its `Location` was
    authorised as. Every run has such a script, so a statement about all scripts is one about all runs. */
module Redirects {
  import opened Wrappers
  import opened Frames
  import opened Cookies
  import opened Text

  const MAX_REDIRECTS := 10

  datatype Answer = Failed | Response(status: nat, location: string)

  /** `next` is `None` when the redirect is denied or its URL does not parse. */
  datatype Exchange<T> = Exchange(answer: Answer, next: Option<T>)

  datatype Hop<T> = Hop(verb: string, body: seq<byte>, target: T)

  datatype Outcome<T> =
    | Answered(status: nat, final: T)
    | UpstreamFailed
    | RedirectDenied
    | TooManyRedirects

  datatype Trip<T> = Trip(hops: seq<Hop<T>>, outcome: Outcome<T>)

  /** A redirect that turns the request into a GET without a body. */
  predicate Drops(status: nat, verb: string) {
    status == 303 || ((status == 301 || status == 302) && verb == "POST")
  }

  predicate ServerFollows(a: Answer) {
    a.Response? && 300 <= a.status <= 399 && a.location != ""
  }

  predicate ClientFollows(a: Answer) {
    a.Response? && IsRedirect(a.status) && a.location != ""
  }

  predicate IsRedirect(status: nat) {
    status == 301 || status == 302 || status == 303 || status == 307 || status == 308
  }

  function AnswerTo<T>(script: seq<Exchange<T>>, n: nat): Answer {
    if n < |script| then script[n].answer else Failed
  }

  function NextOf<T>(script: seq<Exchange<T>>, n: nat): Option<T> {
    if n < |script| then script[n].next else None
  }

  function Follows(server: bool, a: Answer): bool {
    if server then ServerFollows(a) else ClientFollows(a)
  }

  /** The run from the n-th request on. */
  function From<T>(server: bool, script: seq<Exchange<T>>, n: nat, verb: string, body: seq<byte>, current: T): Trip<T>
    requires n <= MAX_REDIRECTS + 1
    decreases MAX_REDIRECTS + 1 - n
  {
    if n > MAX_REDIRECTS then Trip([], TooManyRedirects)
    else
      var hop, answer := Hop(verb, body, current), AnswerTo(script, n);
      if answer.Failed? then Trip([hop], UpstreamFailed)
      else if !Follows(server, answer) then Trip([hop], Answered(answer.status, current))
      else
        match NextOf(script, n)
        case None => Trip([hop], RedirectDenied)
        case Some(next) =>
          var drops := Drops(answer.status, verb);
          var rest := From(server, script, n + 1, if drops then "GET" else verb, if drops then [] else body, next);
          Trip([hop] + rest.hops, rest.outcome)
  }

  function ServerTrip<T>(script: seq<Exchange<T>>, verb: string, body: seq<byte>, target: T): Trip<T> {
    From(true, script, 0, verb, body, target)
  }

  function Upper(s: string): string {
    seq(|s|, i requires 0 <= i < |s| => if 'a' <= s[i] <= 'z' then s[i] - 'a' + 'A' else s[i])
  }

  function ClientTrip<T>(script: seq<Exchange<T>>, verb: string, body: seq<byte>, target: T): Trip<T> {
    From(false, script, 0, Upper(verb), body, target)
  }

  /** One turn of the loop after the requests `hops` have been sent. */
  lemma Onward<T>(server: bool, script: seq<Exchange<T>>, n: nat, verb: string, body: seq<byte>, current: T,
                  hops: seq<Hop<T>>)
    requires n <= MAX_REDIRECTS
    ensures var (hop, answer, rest) := (Hop(verb, body, current), AnswerTo(script, n), From(server, script, n, verb, body, current));
            if answer.Response? && Follows(server, answer) && NextOf(script, n).Some? then
              var drops := Drops(answer.status, verb);
              var later := From(server, script, n + 1, if drops then "GET" else verb, if drops then [] else body,
                                NextOf(script, n).value);
              Trip(hops + rest.hops, rest.outcome) == Trip(hops + [hop] + later.hops, later.outcome)
            else
              hops + rest.hops == hops + [hop]
              && rest.outcome == if answer.Failed? then UpstreamFailed
                                 else if Follows(server, answer) then RedirectDenied
                                 else Answered(answer.status, current)
  {
    hide ServerFollows, ClientFollows, Drops;
    var (hop, answer) := (Hop(verb, body, current), AnswerTo(script, n));
    if answer.Response? && Follows(server, answer) && NextOf(script, n).Some? {
      var drops := Drops(answer.status, verb);
      var later := From(server, script, n + 1, if drops then "GET" else verb, if drops then [] else body, NextOf(script, n).value);
      assert hops + ([hop] + later.hops) == hops + [hop] + later.hops;
    }
  }

  lemma LoopIsSpent<T>(server: bool, script: seq<Exchange<T>>, verb: string, body: seq<byte>, current: T)
    ensures From(server, script, MAX_REDIRECTS + 1, verb, body, current) == Trip([], TooManyRedirects)
  {
  }

  // ----- the jar on the way -----------------------------------------------------------------

  /** What happens to the jar around one request: what other requests save before it loads its cookies and while it is
      under way, the cookies of its response, and the clock at both moments. */
  datatype Passage = Passage(before: seq<Save>, loaded: Time, during: seq<Save>, cookies: seq<Cookie>, saved: Time)

  /** The jar's context, the host and path of every target, and what happens on the way. */
  datatype Travel<!T> = Travel(context: ContextId, site: T -> Site, passages: seq<Passage>, suffixes: set<string>)

  function PassageAt<T>(t: Travel<T>, n: nat): Passage {
    if n < |t.passages| then t.passages[n] else Passage([], 0, [], [], 0)
  }

  /** `httpCookieURL`: a WebSocket target has the cookies of the HTTP one. */
  function CookieSite<T>(t: Travel<T>, target: T): Site {
    var site := t.site(target);
    site.(scheme := if site.scheme == "wss" then "https" else if site.scheme == "ws" then "http" else site.scheme)
  }

  /** What is saved from the sending of the n-th request until its response has been dealt with. */
  function ResponseSaves<T>(t: Travel<T>, n: nat, target: T): seq<Save> {
    var p := PassageAt(t, n);
    p.during + Batch(t.context, CookieSite(t, target), p.cookies, p.saved)
  }

  /** Everything saved during a run of requests that were all answered. */
  function SavedBy<T>(t: Travel<T>, hops: seq<Hop<T>>): seq<Save>
    decreases |hops|, 0
  {
    if hops == [] then []
    else
      var n := |hops| - 1;
      SavedBeforeNext(t, hops[..n]) + ResponseSaves(t, n, hops[n].target)
  }

  /** The same up to the moment when the request after them loads its cookies. */
  function SavedBeforeNext<T>(t: Travel<T>, hops: seq<Hop<T>>): seq<Save>
    decreases |hops|, 1
  {
    SavedBy(t, hops) + PassageAt(t, |hops|).before
  }

  /** `sent` are the cookies stored under `keys`, and these are exactly the ones that match the k-th target in the jar of
      that moment. */
  ghost predicate Carries<T>(t: Travel<T>, jar: Jar, hops: seq<Hop<T>>, k: nat, sent: seq<(string, string)>, keys: seq<Key>)
    requires k < |hops|
  {
    var now := ApplyAll(jar, SavedBeforeNext(t, hops[..k]), t.suffixes);
    && Answers(keys, now, t.context, CookieSite(t, hops[k].target), PassageAt(t, k).loaded, false)
    && |sent| == |keys|
    && forall i :: 0 <= i < |keys| ==> keys[i] in now && sent[i] == (keys[i].name, now[keys[i]].value)
  }

  ghost predicate AllCarry<T>(t: Travel<T>, jar: Jar, hops: seq<Hop<T>>, sent: seq<seq<(string, string)>>,
                              keys: seq<seq<Key>>)
  {
    |sent| == |keys| == |hops| && forall k :: 0 <= k < |hops| ==> Carries(t, jar, hops, k, sent[k], keys[k])
  }

  lemma OneMoreCarries<T>(t: Travel<T>, jar: Jar, hops: seq<Hop<T>>, sent: seq<seq<(string, string)>>,
                          keys: seq<seq<Key>>, hop: Hop<T>, more: seq<(string, string)>, moreKeys: seq<Key>)
    requires AllCarry(t, jar, hops, sent, keys) && Carries(t, jar, hops + [hop], |hops|, more, moreKeys)
    ensures AllCarry(t, jar, hops + [hop], sent + [more], keys + [moreKeys])
  {
    hide Answers, ApplyAll, SavedBeforeNext;
    forall k | 0 <= k < |hops| + 1
      ensures Carries(t, jar, hops + [hop], k, (sent + [more])[k], (keys + [moreKeys])[k])
    {
      if k < |hops| {
        assert (hops + [hop])[..k] == hops[..k];
        assert Carries(t, jar, hops, k, sent[k], keys[k]);
      }
    }
  }

  /** `muxRoundTrip`: the requests of the run, and the cookies each of them carries. */
  method MuxRoundTrip<T>(script: seq<Exchange<T>>, meta: string, payload: seq<byte>, target: T, t: Travel<T>,
                         table: CookieTable)
    returns (trip: Trip<T>, sent: seq<seq<(string, string)>>, ghost keys: seq<seq<Key>>)
    requires table.Valid()
    modifies table
    ensures trip == ServerTrip(script, meta, payload, target)
    ensures AllCarry(t, old(table.jar), trip.hops, sent, keys)
    ensures table.Valid()
    ensures table.jar == ApplyAll(old(table.jar),
                                  if trip.outcome.UpstreamFailed? then SavedBeforeNext(t, trip.hops[..|trip.hops| - 1])
                                  else SavedBy(t, trip.hops), t.suffixes)
  {
    hide From, AllCarry, ApplyAll, SavedBy, SavedBeforeNext, Answers, ResponseSaves;
    var verb, body, current := meta, payload, target;
    var hops: seq<Hop<T>> := [];
    sent, keys := [], [];
    NothingYet(t, table.jar);
    for redirects := 0 to MAX_REDIRECTS + 1
      invariant |hops| == redirects && table.Valid()
      invariant table.jar == ApplyAll(old(table.jar), SavedBy(t, hops), t.suffixes)
      invariant AllCarry(t, old(table.jar), hops, sent, keys)
      invariant var rest := From(true, script, redirects, verb, body, current);
                ServerTrip(script, meta, payload, target) == Trip(hops + rest.hops, rest.outcome)
    {
      Onward(true, script, redirects, verb, body, current, hops);
      var hop, passage, site := Hop(verb, body, current), PassageAt(t, redirects), CookieSite(t, current);
      Saves(t, old(table.jar), hops, hop);
      table.SaveEach(passage.before, t.suffixes);
      var cookies, _, loaded := table.Load(t.context, site, passage.loaded, false);
      assert (hops + [hop])[..redirects] == hops;
      OneMoreCarries(t, old(table.jar), hops, sent, keys, hop, cookies, loaded);
      hops, sent, keys := hops + [hop], sent + [cookies], keys + [loaded];
      var response := AnswerTo(script, redirects);
      if response.Failed? {
        trip := Trip(hops, UpstreamFailed);
        return;
      }
      table.SaveEach(passage.during, t.suffixes);
      table.SaveCookies(t.context, site, passage.cookies, passage.saved, t.suffixes);
      if response.status < 300 || response.status > 399 || response.location == "" {
        trip := Trip(hops, Answered(response.status, current));
        return;
      }
      var next := NextOf(script, redirects);
      if next.None? {
        trip := Trip(hops, RedirectDenied);
        return;
      }
      if response.status == 303 || ((response.status == 301 || response.status == 302) && verb == "POST") {
        verb, body := "GET", [];
      }
      current := next.value;
    }
    LoopIsSpent(true, script, verb, body, current);
    trip := Trip(hops, TooManyRedirects);
  }

  lemma NothingYet<T>(t: Travel<T>, jar: Jar)
    ensures AllCarry(t, jar, [], [], []) && ApplyAll(jar, SavedBy(t, []), t.suffixes) == jar
  {
  }

  /** One turn of the loop, on the jar. */
  lemma Saves<T>(t: Travel<T>, jar: Jar, hops: seq<Hop<T>>, hop: Hop<T>)
    ensures var p := PassageAt(t, |hops|);
            var loading := ApplyAll(ApplyAll(jar, SavedBy(t, hops), t.suffixes), p.before, t.suffixes);
            && loading == ApplyAll(jar, SavedBeforeNext(t, hops), t.suffixes)
            && ApplyAll(ApplyAll(loading, p.during, t.suffixes),
                        Batch(t.context, CookieSite(t, hop.target), p.cookies, p.saved), t.suffixes)
               == ApplyAll(jar, SavedBy(t, hops + [hop]), t.suffixes)
  {
    hide ApplyAll, Batch, CookieSite;
    var p := PassageAt(t, |hops|);
    var batch := Batch(t.context, CookieSite(t, hop.target), p.cookies, p.saved);
    var before := SavedBeforeNext(t, hops);
    assert (hops + [hop])[..|hops|] == hops;
    assert SavedBy(t, hops + [hop]) == before + (p.during + batch);
    assert before + (p.during + batch) == before + p.during + batch;
    BatchesCompose(jar, SavedBy(t, hops), p.before, t.suffixes);
    BatchesCompose(jar, before, p.during, t.suffixes);
    BatchesCompose(jar, before + p.during, batch, t.suffixes);
  }

  /** Whether a request of a run carries the cookie of a key: as the last save that concerned it left it, whoever made
      it, or as the jar held it before the run. */
  lemma HopCarriesExactly<T>(t: Travel<T>, jar: Jar, hops: seq<Hop<T>>, k: nat, sent: seq<(string, string)>,
                             keys: seq<Key>, key: Key)
    requires k < |hops| && Carries(t, jar, hops, k, sent, keys)
    ensures var past := SavedBeforeNext(t, hops[..k]);
            var (site, now) := (CookieSite(t, hops[k].target), PassageAt(t, k).loaded);
            match LastTouch(past, key, t.suffixes)
            case None => key in keys <==> key in jar && Sends(key, jar[key], t.context, site, now, false)
            case Some(n) =>
              var s := past[n]; var p := PlaceOf(s.context, s.origin, s.cookie, t.suffixes).value;
              if Expired(s.cookie, s.now) then key !in keys
              else (key in keys <==> Sends(key, EntryOf(s.cookie, p.hostOnly), t.context, site, now, false))
                   && forall i :: 0 <= i < |keys| && keys[i] == key ==> sent[i] == (key.name, s.cookie.value)
  {
    hide Sends, Expired, PlaceOf, SavedBeforeNext, LastTouch, Touches, ApplyAll;
    var past := SavedBeforeNext(t, hops[..k]);
    JarHoldsLastAccepted(jar, past, key, t.suffixes);
    if LastTouch(past, key, t.suffixes).Some? {
      assert Touches(past[LastTouch(past, key, t.suffixes).value], key, t.suffixes);
    }
  }

  /** Cookies go over WebSockets as over HTTP: a Secure one needs https or wss, and nothing else depends on the scheme. */
  lemma SecureOverWss<T>(t: Travel<T>, target: T, key: Key, e: Entry, now: Time)
    ensures Sends(key, e, t.context, CookieSite(t, target), now, false)
            <==> Sends(key, e.(secure := false), t.context, t.site(target), now, false)
                 && (e.secure ==> t.site(target).scheme == "https" || t.site(target).scheme == "wss")
  {
    hide DomainMatches, PathMatches, Lower;
  }

  /** The i-th cookie of the j-th response, as it is saved. */
  function SaveOf<T>(t: Travel<T>, hops: seq<Hop<T>>, j: nat, i: nat): Save
    requires j < |hops| && i < |PassageAt(t, j).cookies|
  {
    Save(t.context, CookieSite(t, hops[j].target), PassageAt(t, j).cookies[i], PassageAt(t, j).saved)
  }

  /** Its place in the history. */
  function IndexOf<T>(t: Travel<T>, hops: seq<Hop<T>>, j: nat, i: nat): nat
    requires j < |hops|
  {
    |SavedBeforeNext(t, hops[..j])| + |PassageAt(t, j).during| + i
  }

  lemma {:induction false} SavedWhere<T>(t: Travel<T>, hops: seq<Hop<T>>, j: nat, i: nat, k: nat)
    requires j < k <= |hops| && i < |PassageAt(t, j).cookies|
    ensures var past := SavedBy(t, hops[..k]); var n := IndexOf(t, hops, j, i);
            n < |past| && past[n] == SaveOf(t, hops, j, i)
    decreases k
  {
    var front := hops[..k - 1];
    assert hops[..k][..k - 1] == front && hops[..k][k - 1] == hops[k - 1];
    assert SavedBy(t, hops[..k]) == SavedBeforeNext(t, front) + ResponseSaves(t, k - 1, hops[k - 1].target);
    if j < k - 1 {
      SavedWhere(t, hops, j, i, k - 1);
    }
  }

  /** A cookie set by the response to one request goes with every later request of the run it matches, and with no other,
      as long as nothing saved since concerns its key. */
  lemma CookieTravels<T>(t: Travel<T>, jar: Jar, hops: seq<Hop<T>>, j: nat, i: nat, k: nat, sent: seq<(string, string)>,
                         keys: seq<Key>, key: Key)
    requires j < k < |hops| && i < |PassageAt(t, j).cookies| && Carries(t, jar, hops, k, sent, keys)
    requires Touches(SaveOf(t, hops, j, i), key, t.suffixes)
    requires forall n :: IndexOf(t, hops, j, i) < n < |SavedBeforeNext(t, hops[..k])| ==>
               !Touches(SavedBeforeNext(t, hops[..k])[n], key, t.suffixes)
    ensures var s := SaveOf(t, hops, j, i); var p := PlaceOf(s.context, s.origin, s.cookie, t.suffixes).value;
            if Expired(s.cookie, s.now) then key !in keys
            else (key in keys <==> Sends(key, EntryOf(s.cookie, p.hostOnly), t.context, CookieSite(t, hops[k].target),
                                         PassageAt(t, k).loaded, false))
                 && forall x :: 0 <= x < |keys| && keys[x] == key ==> sent[x] == (key.name, s.cookie.value)
  {
    hide Sends, Expired, PlaceOf, LastTouch, SavedBy, Carries, CookieSite;
    var past, n := SavedBeforeNext(t, hops[..k]), IndexOf(t, hops, j, i);
    SavedWhere(t, hops, j, i, k);
    assert past[n] == SaveOf(t, hops, j, i);
    LastTouchIsLast(past, key, t.suffixes);
    assert LastTouch(past, key, t.suffixes) == Some(n);
    HopCarriesExactly(t, jar, hops, k, sent, keys, key);
  }

  method Route<T>(script: seq<Exchange<T>>, option: string, payload: seq<byte>, routeURL: T) returns (trip: Trip<T>)
    ensures trip == ClientTrip(script, option, payload, routeURL)
  {
    hide Upper, IsRedirect, Drops, From;
    var verb, body, current := Upper(option), payload, routeURL;
    var hops: seq<Hop<T>> := [];
    var redirects := 0;
    while redirects <= MAX_REDIRECTS
      invariant 0 <= redirects <= MAX_REDIRECTS + 1
      invariant var rest := From(false, script, redirects, verb, body, current);
                ClientTrip(script, option, payload, routeURL) == Trip(hops + rest.hops, rest.outcome)
    {
      Onward(false, script, redirects, verb, body, current, hops);
      hops := hops + [Hop(verb, body, current)];
      var response := AnswerTo(script, redirects);
      if response.Failed? {
        return Trip(hops, UpstreamFailed);
      }
      if !ClientFollows(response) {
        return Trip(hops, Answered(response.status, current));
      }
      if NextOf(script, redirects).None? {
        return Trip(hops, RedirectDenied);
      }
      current := NextOf(script, redirects).value;
      if Drops(response.status, verb) {
        verb, body := "GET", [];
      }
      redirects := redirects + 1;
    }
    LoopIsSpent(false, script, verb, body, current);
    return Trip(hops, TooManyRedirects);
  }

  // ----- what a run sends -------------------------------------------------------------------

  /** Some response before the k-th request turned it into a GET. */
  ghost predicate DroppedBefore<T>(script: seq<Exchange<T>>, n: nat, k: nat, verb: string) {
    exists j :: n <= j < n + k && AnswerTo(script, j).Response? && Drops(AnswerTo(script, j).status, verb)
  }

  /** The k-th request of a run, said without the loop: its target is the one the previous redirect was authorised as,
      and it carries the original method and body unless some earlier response dropped them, after which it is a GET
      without a body for good. */
  lemma {:induction false} HopAt<T>(server: bool, script: seq<Exchange<T>>, n: nat, verb: string, body: seq<byte>,
                                    current: T, k: nat)
    requires n <= MAX_REDIRECTS + 1
    requires k < |From(server, script, n, verb, body, current).hops|
    ensures n + k <= MAX_REDIRECTS
    ensures var hop := From(server, script, n, verb, body, current).hops[k]; var dropped := DroppedBefore(script, n, k, verb);
            && hop.verb == (if dropped then "GET" else verb)
            && hop.body == (if dropped then [] else body)
            && if k == 0 then hop.target == current
               else Follows(server, AnswerTo(script, n + k - 1)) && NextOf(script, n + k - 1) == Some(hop.target)
    decreases k
  {
    hide From, Follows, Drops, DroppedBefore;
    NothingBefore(script, n, verb);
    HopsOf(server, script, n, verb, body, current);
    if k > 0 {
      var drops := Drops(AnswerTo(script, n).status, verb);
      HopAt(server, script, n + 1, if drops then "GET" else verb, if drops then [] else body, NextOf(script, n).value, k - 1);
      if drops {
        DroppedHere(script, n, k, verb);
      } else {
        DroppedLater(script, n, k, verb);
      }
    }
  }

  /** The first request of a run, and the rest. */
  lemma HopsOf<T>(server: bool, script: seq<Exchange<T>>, n: nat, verb: string, body: seq<byte>, current: T)
    requires n <= MAX_REDIRECTS + 1
    ensures var hops := From(server, script, n, verb, body, current).hops;
            var answer := AnswerTo(script, n);
            if n > MAX_REDIRECTS then hops == []
            else if answer.Response? && Follows(server, answer) && NextOf(script, n).Some? then
              var drops := Drops(answer.status, verb);
              hops == [Hop(verb, body, current)]
                      + From(server, script, n + 1, if drops then "GET" else verb, if drops then [] else body,
                             NextOf(script, n).value).hops
            else hops == [Hop(verb, body, current)]
  {
    hide Drops, ServerFollows, ClientFollows;
  }

  lemma NothingBefore<T>(script: seq<Exchange<T>>, n: nat, verb: string)
    ensures !DroppedBefore(script, n, 0, verb)
  {
  }

  lemma DroppedHere<T>(script: seq<Exchange<T>>, n: nat, k: nat, verb: string)
    requires k > 0 && AnswerTo(script, n).Response? && Drops(AnswerTo(script, n).status, verb)
    ensures DroppedBefore(script, n, k, verb)
  {
  }

  lemma DroppedLater<T>(script: seq<Exchange<T>>, n: nat, k: nat, verb: string)
    requires k > 0 && AnswerTo(script, n).Response? && !Drops(AnswerTo(script, n).status, verb)
    ensures DroppedBefore(script, n, k, verb) <==> DroppedBefore(script, n + 1, k - 1, verb)
  {
  }

  /** One request of a run and the one after it. The response between them has a Location and a redirect status, any
      from 300 to 399 for the server and one of five for the client. After 303 the next request is a GET without a body,
      after 301 and 302 too if this one was a POST; otherwise, and so after 307 and 308, method and body stay. */
  ghost predicate Onto<T>(server: bool, a: Answer, hop: Hop<T>, next: Hop<T>) {
    && a.Response? && a.location != ""
    && (server ==> 300 <= a.status <= 399)
    && (!server ==> a.status in {301, 302, 303, 307, 308})
    && (a.status == 303 ==> next.verb == "GET" && next.body == [])
    && (a.status == 301 || a.status == 302 ==>
          if hop.verb == "POST" then next.verb == "GET" && next.body == [] else next.verb == hop.verb && next.body == hop.body)
    && (a.status != 301 && a.status != 302 && a.status != 303 ==> next.verb == hop.verb && next.body == hop.body)
  }

  lemma {:induction false} EachHopFollows<T>(server: bool, script: seq<Exchange<T>>, n: nat, verb: string, body: seq<byte>,
                                             current: T, k: nat)
    requires n <= MAX_REDIRECTS + 1
    requires k + 1 < |From(server, script, n, verb, body, current).hops|
    ensures var hops := From(server, script, n, verb, body, current).hops;
            Onto(server, AnswerTo(script, n + k), hops[k], hops[k + 1]) && NextOf(script, n + k) == Some(hops[k + 1].target)
    decreases k
  {
    hide From;
    HopsOf(server, script, n, verb, body, current);
    var drops := Drops(AnswerTo(script, n).status, verb);
    var (verb', body') := (if drops then "GET" else verb, if drops then [] else body);
    HopsOf(server, script, n + 1, verb', body', NextOf(script, n).value);
    if k > 0 {
      EachHopFollows(server, script, n + 1, verb', body', NextOf(script, n).value, k - 1);
    }
  }

  /** How a run ends, by the answer to its last request: it failed, or it is no redirect this loop follows, or the redirect
      was denied, or it was the eleventh. */
  ghost predicate EndsWith<T>(server: bool, a: Answer, next: Option<T>, sent: nat, final: T, outcome: Outcome<T>) {
    if a.Failed? then outcome == UpstreamFailed
    else if a.location == "" || (if server then a.status < 300 || a.status > 399 else a.status !in {301, 302, 303, 307, 308}) then
      outcome == Outcome.Answered(a.status, final)
    else if next.None? then outcome == RedirectDenied
    else sent == 11 && outcome == TooManyRedirects
  }

  /** A run from the n-th request on ends as the answer to its last request says. */
  ghost predicate Ended<T>(server: bool, script: seq<Exchange<T>>, n: nat, trip: Trip<T>) {
    var last := |trip.hops| - 1;
    && last >= 0
    && EndsWith(server, AnswerTo(script, n + last), NextOf(script, n + last), n + last + 1, trip.hops[last].target, trip.outcome)
  }

  lemma {:induction false} RunEnds<T>(server: bool, script: seq<Exchange<T>>, n: nat, verb: string, body: seq<byte>, current: T)
    requires n <= MAX_REDIRECTS
    ensures Ended(server, script, n, From(server, script, n, verb, body, current))
    decreases MAX_REDIRECTS - n
  {
    hide Drops, EndsWith, Follows, Ended;
    var answer, hop := AnswerTo(script, n), Hop(verb, body, current);
    if answer.Response? && Follows(server, answer) && NextOf(script, n).Some? {
      var drops := Drops(answer.status, verb);
      var (verb', body', next) := (if drops then "GET" else verb, if drops then [] else body, NextOf(script, n).value);
      var later := From(server, script, n + 1, verb', body', next);
      assert From(server, script, n, verb, body, current) == Trip([hop] + later.hops, later.outcome);
      if n < MAX_REDIRECTS {
        RunEnds(server, script, n + 1, verb', body', next);
        EndsLater(server, script, n, hop, later);
      } else {
        LoopIsSpent(server, script, verb', body', next);
        assert [hop] + [] == [hop];
        EndsNow(server, script, n, hop, TooManyRedirects);
      }
    } else {
      EndsNow(server, script, n, hop, From(server, script, n, verb, body, current).outcome);
    }
  }

  lemma EndsLater<T>(server: bool, script: seq<Exchange<T>>, n: nat, hop: Hop<T>, later: Trip<T>)
    requires Ended(server, script, n + 1, later)
    ensures Ended(server, script, n, Trip([hop] + later.hops, later.outcome))
  {
    hide EndsWith;
  }

  lemma EndsNow<T>(server: bool, script: seq<Exchange<T>>, n: nat, hop: Hop<T>, outcome: Outcome<T>)
    requires var (answer, next) := (AnswerTo(script, n), NextOf(script, n));
             outcome == if answer.Failed? then UpstreamFailed
                        else if !Follows(server, answer) then Outcome.Answered(answer.status, hop.target)
                        else if next.None? then RedirectDenied
                        else TooManyRedirects
    requires outcome == TooManyRedirects ==> n == MAX_REDIRECTS
    ensures Ended(server, script, n, Trip([hop], outcome))
  {
  }

  /** Both loops, without their code: the first request is the one asked for, in upper case for the client; each later one
      follows from the response before it; and the run ends as the last response says. */
  lemma RunExactly<T>(server: bool, script: seq<Exchange<T>>, verb: string, body: seq<byte>, target: T)
    ensures var trip := if server then ServerTrip(script, verb, body, target) else ClientTrip(script, verb, body, target);
            var last := |trip.hops| - 1;
            && last >= 0 && trip.hops[0] == Hop(if server then verb else Upper(verb), body, target)
            && (forall k :: 0 <= k < last ==>
                  Onto(server, AnswerTo(script, k), trip.hops[k], trip.hops[k + 1])
                  && NextOf(script, k) == Some(trip.hops[k + 1].target))
            && EndsWith(server, AnswerTo(script, last), NextOf(script, last), last + 1, trip.hops[last].target, trip.outcome)
  {
    hide From, Onto, EndsWith, Upper, Follows;
    var first := if server then verb else Upper(verb);
    var trip := From(server, script, 0, first, body, target);
    HopsOf(server, script, 0, first, body, target);
    RunEnds(server, script, 0, first, body, target);
    forall k | 0 <= k < |trip.hops| - 1
      ensures Onto(server, AnswerTo(script, k), trip.hops[k], trip.hops[k + 1])
              && NextOf(script, k) == Some(trip.hops[k + 1].target)
    {
      EachHopFollows(server, script, 0, first, body, target, k);
    }
  }

  /** A run sends at most eleven requests; the first goes to the authorised target it was given and each later one to
      a target authorised on the way. */
  lemma AuthorisedHopsOnly<T>(script: seq<Exchange<T>>, verb: string, body: seq<byte>, target: T)
    ensures var hops := ServerTrip(script, verb, body, target).hops;
            && 0 < |hops| <= MAX_REDIRECTS + 1
            && hops[0].target == target
            && forall k :: 0 < k < |hops| ==> NextOf(script, k - 1) == Some(hops[k].target)
  {
    var hops := ServerTrip(script, verb, body, target).hops;
    assert |hops| > 0;
    forall k | 0 <= k < |hops|
      ensures k <= MAX_REDIRECTS && if k == 0 then hops[k].target == target else NextOf(script, k - 1) == Some(hops[k].target)
    {
      HopAt(true, script, 0, verb, body, target, k);
    }
    assert |hops| - 1 <= MAX_REDIRECTS;
  }

  /** Once a request has gone out without its body, every later one is a GET without a body. */
  lemma OnceDroppedAlwaysGet<T>(script: seq<Exchange<T>>, verb: string, body: seq<byte>, target: T, j: nat, k: nat)
    requires body != [] && j <= k < |ServerTrip(script, verb, body, target).hops|
    requires ServerTrip(script, verb, body, target).hops[j].body == []
    ensures ServerTrip(script, verb, body, target).hops[k].verb == "GET"
    ensures ServerTrip(script, verb, body, target).hops[k].body == []
  {
    HopAt(true, script, 0, verb, body, target, j);
    HopAt(true, script, 0, verb, body, target, k);
  }

  // ----- the two loops agree ----------------------------------------------------------------

  /** Every response the server followed carried one of the five redirect statuses. */
  ghost predicate PlainRedirects<T>(script: seq<Exchange<T>>, n: nat, followed: nat) {
    forall k :: n <= k < n + followed ==> AnswerTo(script, k).Response? && IsRedirect(AnswerTo(script, k).status)
  }

  lemma {:induction false} SameHops<T>(script: seq<Exchange<T>>, n: nat, verb: string, body: seq<byte>, current: T)
    requires n <= MAX_REDIRECTS + 1
    ensures var server := From(true, script, n, verb, body, current).hops;
            (n <= MAX_REDIRECTS ==> |server| > 0)
            && (From(false, script, n, verb, body, current).hops == server
                <==> PlainRedirects(script, n, if server == [] then 0 else |server| - 1))
    decreases MAX_REDIRECTS + 1 - n
  {
    if n <= MAX_REDIRECTS && ServerFollows(AnswerTo(script, n)) && NextOf(script, n).Some? {
      var answer, next := AnswerTo(script, n), NextOf(script, n).value;
      var drops := Drops(answer.status, verb);
      var (verb', body') := (if drops then "GET" else verb, if drops then [] else body);
      SameHops(script, n + 1, verb', body', next);
      var (server, client) := (From(true, script, n + 1, verb', body', next).hops, From(false, script, n + 1, verb', body', next).hops);
      var hop := Hop(verb, body, current);
      assert From(true, script, n, verb, body, current).hops == [hop] + server;
      if n == MAX_REDIRECTS {
        assert server == [] && client == [];
      } else {
        PlainLater(script, n, |server|);
        if IsRedirect(answer.status) {
          assert From(false, script, n, verb, body, current).hops == [hop] + client;
          assert ([hop] + client)[1..] == client && ([hop] + server)[1..] == server;
        } else {
          assert |From(false, script, n, verb, body, current).hops| == 1;
        }
      }
    }
  }

  lemma PlainLater<T>(script: seq<Exchange<T>>, n: nat, followed: nat)
    requires followed > 0
    ensures PlainRedirects(script, n, followed)
            <==> AnswerTo(script, n).Response? && IsRedirect(AnswerTo(script, n).status) && PlainRedirects(script, n + 1, followed - 1)
  {
  }

  /** The TypeScript loop sends exactly the server's requests if and only if the method is upper case and every response
      the server followed had status 301, 302, 303, 307 or 308: the client upper-cases the method before the first
      request, and the server also follows other 3xx responses. */
  lemma ClientMatchesServer<T>(script: seq<Exchange<T>>, verb: string, body: seq<byte>, target: T)
    ensures var server := ServerTrip(script, verb, body, target).hops;
            |server| > 0
            && (ClientTrip(script, verb, body, target).hops == server
                <==> Upper(verb) == verb && PlainRedirects(script, 0, |server| - 1))
  {
    hide From, Upper, PlainRedirects, Drops, Follows;
    SameHops(script, 0, verb, body, target);
    HopsOf(true, script, 0, verb, body, target);
    HopsOf(false, script, 0, Upper(verb), body, target);
    if Upper(verb) != verb {
      assert ClientTrip(script, verb, body, target).hops[0].verb == Upper(verb);
      assert ServerTrip(script, verb, body, target).hops[0].verb == verb;
    }
  }

  /** The server compares the method as given, so a lower-case `post` keeps its body across a 301 where the client, which
      upper-cases it first, switches to GET. */
  lemma LowerCasePostDiffers(body: seq<byte>)
    ensures var script := [Exchange(Response(301, "/b"), Some("/b"))];
            && ServerTrip(script, "post", body, "/a").hops == [Hop("post", body, "/a"), Hop("post", body, "/b")]
            && ClientTrip(script, "post", body, "/a").hops == [Hop("POST", body, "/a"), Hop("GET", [], "/b")]
  {
    var script := [Exchange(Response(301, "/b"), Some("/b"))];
    assert Upper("post") == "POST";
    assert From(true, script, 1, "post", body, "/b") == Trip([Hop("post", body, "/b")], UpstreamFailed);
    assert From(false, script, 1, "GET", [], "/b") == Trip([Hop("GET", [], "/b")], UpstreamFailed);
  }
}

/** The client libraries: who closes the contexts they open, and how a session's flags behave when its methods run
    concurrently. */
module Sdk {
  import opened Wrappers

  // ----- one-shot requests ------------------------------------------------------------------

  /** What came of asking the server for a context. `complete` is whether the reply could be read and named both the
      context and its route; the context exists on the server either way. */
  datatype Creation = Refused | Made(context: nat, complete: bool)

  /** How one `Client.Do` goes after its context is open. */
  datatype Course = BadRequest | NoResponse | Problem | Answered

  /** The Go client's one-shot request: the close attempts it makes itself, and the context the returned body is left
      to close. */
  datatype Effect = Effect(attempts: seq<nat>, held: Option<nat>)

  function DoEffect(creation: Creation, course: Course): Effect {
    match creation
    case Refused => Effect([], None)
    case Made(context, complete) =>
      if !complete then Effect([], None)
      else if course.Answered? then Effect([], Some(context))
      else Effect([context], None)
  }

  /** The TypeScript client reads the whole response and closes in a `finally`; for it `complete` only asks that the reply
      could be read and named the context. */
  function FetchEffect(creation: Creation): Effect {
    match creation
    case Refused => Effect([], None)
    case Made(context, complete) => if complete then Effect([context], None) else Effect([], None)
  }

  /** The requests to close a context that have been sent, whatever their result. */
  class Ledger {
    var attempts: seq<nat>

    constructor ()
      ensures attempts == []
    {
      attempts := [];
    }

    method CloseContext(context: nat)
      modifies this
      ensures attempts == old(attempts) + [context]
    {
      attempts := attempts + [context];
    }
  }

  class CleanupBody {
    const context: nat
    const ledger: Ledger
    var done: bool

    constructor (context: nat, ledger: Ledger)
      ensures this.context == context && this.ledger == ledger && !done
    {
      this.context, this.ledger, this.done := context, ledger, false;
    }

    /** Closing any number of times attempts one close. */
    method Close()
      modifies this, ledger
      ensures done
      ensures ledger.attempts == if old(done) then old(ledger.attempts) else old(ledger.attempts) + [context]
    {
      if !done {
        done := true;
        ledger.CloseContext(context);
      }
    }
  }

  /** `Client.Do`, every exit path. */
  method Do(ledger: Ledger, creation: Creation, course: Course) returns (body: CleanupBody?)
    modifies ledger
    ensures var effect := DoEffect(creation, course);
            && ledger.attempts == old(ledger.attempts) + effect.attempts
            && (body != null <==> effect.held.Some?)
            && (body != null ==> fresh(body) && !body.done && body.ledger == ledger && effect.held == Some(body.context))
    ensures body != null <==> creation.Made? && creation.complete && course == Answered
    ensures body != null ==> body.context == creation.context && ledger.attempts == old(ledger.attempts)
    ensures creation.Made? && creation.complete && course != Answered
            ==> ledger.attempts == old(ledger.attempts) + [creation.context]
  {
    body := null;
    assert ledger.attempts == ledger.attempts + [];
    if creation.Refused? || !creation.complete {
      return;
    }
    match course {
      case BadRequest =>
        ledger.CloseContext(creation.context);
      case NoResponse =>
        ledger.CloseContext(creation.context);
      case Problem =>
        ledger.CloseContext(creation.context);
      case Answered =>
        body := new CleanupBody(creation.context, ledger);
    }
  }

  /** What the caller of the TypeScript one-shot request gets. */
  datatype Fetched = OpenFailed | Threw | Returned

  /** `TvpnClient.fetch`: the context is closed once whether the session's request returns or throws. */
  method Fetch(ledger: Ledger, creation: Creation, course: Course) returns (r: Fetched)
    modifies ledger
    ensures ledger.attempts == old(ledger.attempts) + FetchEffect(creation).attempts
    ensures r.OpenFailed? <==> creation.Refused? || !creation.complete
    ensures !r.OpenFailed? ==> (r.Returned? <==> course.Answered?) && FetchEffect(creation).attempts == [creation.context]
  {
    assert ledger.attempts == ledger.attempts + [];
    if creation.Refused? || !creation.complete {
      return OpenFailed;
    }
    r := if course.Answered? then Returned else Threw;
    ledger.CloseContext(creation.context);
  }

  // ----- conservation of contexts -----------------------------------------------------------

  datatype Body = Body(context: nat, done: bool)

  /** `created` is every context the server made for this client, `lost` those whose reply was unreadable. */
  datatype State = State(attempts: seq<nat>, bodies: seq<Body>, created: set<nat>, lost: set<nat>)

  datatype Step = Request(creation: Creation, course: Course) | FetchAll(creation: Creation) | CloseBody(body: nat)

  function Init(): State {
    State([], [], {}, {})
  }

  /** The server never issues a context twice. */
  predicate Enabled(s: State, step: Step) {
    match step
    case Request(creation, _) => creation.Made? ==> creation.context !in s.created
    case FetchAll(creation) => creation.Made? ==> creation.context !in s.created
    case CloseBody(k) => k < |s.bodies|
  }

  function Record(s: State, creation: Creation, effect: Effect): State {
    var s' := if creation.Refused? then s
              else s.(created := s.created + {creation.context},
                      lost := if creation.complete then s.lost else s.lost + {creation.context});
    s'.(attempts := s.attempts + effect.attempts,
        bodies := match effect.held case Some(c) => s.bodies + [Body(c, false)] case None => s.bodies)
  }

  function Apply(s: State, step: Step): State
    requires Enabled(s, step)
  {
    match step
    case Request(creation, course) => Record(s, creation, DoEffect(creation, course))
    case FetchAll(creation) => Record(s, creation, FetchEffect(creation))
    case CloseBody(k) =>
      var b := s.bodies[k];
      s.(attempts := if b.done then s.attempts else s.attempts + [b.context], bodies := s.bodies[k := b.(done := true)])
  }

  predicate Runs(s: State, steps: seq<Step>)
    decreases |steps|
  {
    steps == [] || (Enabled(s, steps[0]) && Runs(Apply(s, steps[0]), steps[1..]))
  }

  function Exec(s: State, steps: seq<Step>): State
    requires Runs(s, steps)
    decreases |steps|
  {
    if steps == [] then s else Exec(Apply(s, steps[0]), steps[1..])
  }

  /** How many unclosed bodies hold a context. */
  function Held(bodies: seq<Body>, c: nat): nat {
    if bodies == [] then 0
    else
      var b := bodies[|bodies| - 1];
      Held(bodies[..|bodies| - 1], c) + if b.context == c && !b.done then 1 else 0
  }

  function Attempts(attempts: seq<nat>, c: nat): nat {
    multiset(attempts)[c]
  }

  ghost predicate Conserved(s: State) {
    s.lost <= s.created
    && forall c :: Attempts(s.attempts, c) + Held(s.bodies, c) == if c in s.created && c !in s.lost then 1 else 0
  }

  lemma HeldSnoc(bodies: seq<Body>, b: Body, c: nat)
    ensures Held(bodies + [b], c) == Held(bodies, c) + if b.context == c && !b.done then 1 else 0
  {
    assert (bodies + [b])[..|bodies|] == bodies;
  }

  lemma {:induction false} HeldUpdate(bodies: seq<Body>, k: nat, b: Body, c: nat)
    requires k < |bodies|
    ensures Held(bodies[k := b], c)
            == Held(bodies, c) - (if bodies[k].context == c && !bodies[k].done then 1 else 0)
               + if b.context == c && !b.done then 1 else 0
  {
    var n := |bodies| - 1;
    if k < n {
      assert bodies[k := b][..n] == bodies[..n][k := b];
      HeldUpdate(bodies[..n], k, b, c);
    } else {
      assert bodies[k := b][..n] == bodies[..n];
    }
  }

  lemma RecordConserves(s: State, creation: Creation, effect: Effect)
    requires Conserved(s) && (creation.Made? ==> creation.context !in s.created)
    requires if creation.Made? && creation.complete
             then effect == Effect([creation.context], None) || effect == Effect([], Some(creation.context))
             else effect == Effect([], None)
    ensures Conserved(Record(s, creation, effect))
  {
    hide Held;
    var s' := Record(s, creation, effect);
    assert s.attempts + [] == s.attempts;
    forall c
      ensures Attempts(s'.attempts, c) + Held(s'.bodies, c) == if c in s'.created && c !in s'.lost then 1 else 0
    {
      if effect.held.Some? {
        HeldSnoc(s.bodies, Body(effect.held.value, false), c);
      }
    }
  }

  lemma StepConserves(s: State, step: Step)
    requires Conserved(s) && Enabled(s, step)
    ensures Conserved(Apply(s, step))
  {
    hide Held;
    match step
    case Request(creation, course) => RecordConserves(s, creation, DoEffect(creation, course));
    case FetchAll(creation) => RecordConserves(s, creation, FetchEffect(creation));
    case CloseBody(k) =>
      forall c
        ensures Held(Apply(s, step).bodies, c)
                == Held(s.bodies, c) - if s.bodies[k].context == c && !s.bodies[k].done then 1 else 0
      {
        HeldUpdate(s.bodies, k, s.bodies[k].(done := true), c);
      }
  }

  lemma {:induction false} RunConserves(s: State, steps: seq<Step>)
    requires Conserved(s) && Runs(s, steps)
    ensures Conserved(Exec(s, steps))
    decreases |steps|
  {
    hide Conserved, Apply, Enabled;
    if steps != [] {
      StepConserves(s, steps[0]);
      RunConserves(Apply(s, steps[0]), steps[1..]);
    }
  }

  /** Over every run, a context the server made has been attempted to close exactly once or is held by exactly one
      unclosed body, if and only if the reply that announced it could be read; otherwise nobody ever closes it. */
  lemma EveryContextHasOneOwner(steps: seq<Step>, c: nat)
    requires Runs(Init(), steps) && c in Exec(Init(), steps).created
    ensures var s := Exec(Init(), steps);
            && (Attempts(s.attempts, c) + Held(s.bodies, c) == 1 <==> c !in s.lost)
            && (c in s.lost ==> Attempts(s.attempts, c) == 0 && Held(s.bodies, c) == 0)
  {
    hide Runs, Exec, Attempts, Held;
    InitConserved();
    RunConserves(Init(), steps);
  }

  lemma InitConserved()
    ensures Conserved(Init())
  {
  }

  /** Nothing is ever closed that was not opened, and once every returned body is closed each readable context has been
      closed exactly once. */
  lemma ClosingEveryBodyClosesEveryContext(steps: seq<Step>, c: nat)
    requires Runs(Init(), steps) && forall k :: 0 <= k < |Exec(Init(), steps).bodies| ==> Exec(Init(), steps).bodies[k].done
    ensures var s := Exec(Init(), steps); Attempts(s.attempts, c) == if c in s.created && c !in s.lost then 1 else 0
  {
    hide Runs, Exec, Attempts, Held;
    InitConserved();
    RunConserves(Init(), steps);
    NothingHeld(Exec(Init(), steps).bodies, c);
  }

  lemma {:induction false} NothingHeld(bodies: seq<Body>, c: nat)
    requires forall k :: 0 <= k < |bodies| ==> bodies[k].done
    ensures Held(bodies, c) == 0
  {
    if bodies != [] {
      NothingHeld(bodies[..|bodies| - 1], c);
    }
  }

  // ----- sessions ---------------------------------------------------------------------------

  /** The Go session sets its flag before it asks the server to close, and takes it back on failure; the TypeScript one
      sets it after. */
  datatype Dialect = Go | TypeScript

  /** `closing` counts close requests in flight, `closes` those that succeeded, `initialUses` the requests sent to the
      initial route, `refused` the calls told that the session is closed. */
  datatype Shared = Shared(closed: bool, usedInitial: bool, closing: nat, closes: nat, initialUses: nat, refused: nat)

  /** The critical sections of a session, in the order they happen to run. `initial` is whether the request is for the
      URL the session was opened with. */
  datatype Event = DoBegins(initial: bool) | CloseBegins | CloseEnds(ok: bool)

  function Opened(): Shared {
    Shared(false, false, 0, 0, 0, 0)
  }

  predicate Possible(x: Shared, e: Event) {
    e.CloseEnds? ==> x.closing > 0
  }

  function React(d: Dialect, x: Shared, e: Event): Shared
    requires Possible(x, e)
  {
    match e
    case DoBegins(initial) =>
      if x.closed then x.(refused := x.refused + 1)
      else if !x.usedInitial && initial then x.(usedInitial := true, initialUses := x.initialUses + 1)
      else x
    case CloseBegins =>
      if x.closed then x else x.(closed := d.Go?, closing := x.closing + 1)
    case CloseEnds(ok) =>
      x.(closing := x.closing - 1, closes := if ok then x.closes + 1 else x.closes, closed := if d.Go? then ok else x.closed || ok)
  }

  predicate Happens(d: Dialect, x: Shared, events: seq<Event>)
    decreases |events|
  {
    events == [] || (Possible(x, events[0]) && Happens(d, React(d, x, events[0]), events[1..]))
  }

  function After(d: Dialect, x: Shared, events: seq<Event>): Shared
    requires Happens(d, x, events)
    decreases |events|
  {
    if events == [] then x else After(d, React(d, x, events[0]), events[1..])
  }

  ghost predicate SessionOk(d: Dialect, x: Shared) {
    && x.initialUses == (if x.usedInitial then 1 else 0)
    && (d.Go? ==> x.closing + x.closes == if x.closed then 1 else 0)
    && (d.TypeScript? ==> (x.closed <==> x.closes > 0))
  }

  lemma {:induction false} SessionKeeps(d: Dialect, x: Shared, events: seq<Event>)
    requires SessionOk(d, x) && Happens(d, x, events)
    ensures SessionOk(d, After(d, x, events))
    ensures x.closes > 0 ==>
              var y := After(d, x, events);
              y.closed && y.initialUses == x.initialUses && (d.Go? ==> y.closing == 0 && y.closes == 1)
    decreases |events|
  {
    if events != [] {
      SessionKeeps(d, React(d, x, events[0]), events[1..]);
    }
  }

  lemma NewSession(d: Dialect)
    ensures SessionOk(d, Opened())
  {
  }

  lemma OneInitialUse(d: Dialect, x: Shared)
    requires SessionOk(d, x)
    ensures x.initialUses <= 1
  {
  }

  /** However calls interleave, in both libraries the initial route is used at most once. */
  lemma InitialRouteUsedOnce(d: Dialect, events: seq<Event>)
    requires Happens(d, Opened(), events)
    ensures After(d, Opened(), events).initialUses <= 1
  {
    hide Happens, After, SessionOk, Opened;
    NewSession(d);
    SessionKeeps(d, Opened(), events);
    OneInitialUse(d, After(d, Opened(), events));
  }

  lemma GoFlag(x: Shared)
    requires SessionOk(Go, x)
    ensures x.closing + x.closes <= 1 && (x.closed <==> x.closing + x.closes == 1)
  {
  }

  /** A Go session has at most one close request in flight and at most one that succeeds, and it counts as closed exactly
      while one of the two is the case. */
  lemma GoClosesOnce(events: seq<Event>)
    requires Happens(Go, Opened(), events)
    ensures var x := After(Go, Opened(), events);
            x.closing + x.closes <= 1 && (x.closed <==> x.closing + x.closes == 1)
  {
    hide Happens, After, SessionOk, Opened;
    NewSession(Go);
    SessionKeeps(Go, Opened(), events);
    GoFlag(After(Go, Opened(), events));
  }

  /** A close that succeeded is for good: whatever follows, no request is accepted and nothing is closed again. */
  lemma GoCloseIsFinal(events: seq<Event>, more: seq<Event>)
    requires Happens(Go, Opened(), events) && Happens(Go, After(Go, Opened(), events), more)
    requires After(Go, Opened(), events).closes > 0
    ensures var (x, y) := (After(Go, Opened(), events), After(Go, After(Go, Opened(), events), more));
            y.closed && y.closing == 0 && y.closes == 1 && y.initialUses == x.initialUses
  {
    hide Happens, After, SessionOk, Opened;
    NewSession(Go);
    SessionKeeps(Go, Opened(), events);
    SessionKeeps(Go, After(Go, Opened(), events), more);
  }

  /** A closed Go session stays closed whatever follows if and only if its close has succeeded: while the request is
      still in flight, its failure reopens the session. */
  lemma ClosedIsFinalExactly(events: seq<Event>)
    requires Happens(Go, Opened(), events) && After(Go, Opened(), events).closed
    ensures var x := After(Go, Opened(), events);
            (forall more :: Happens(Go, x, more) ==> After(Go, x, more).closed) <==> x.closes > 0
  {
    hide Happens, After, SessionOk, Opened;
    NewSession(Go);
    SessionKeeps(Go, Opened(), events);
    var x := After(Go, Opened(), events);
    if x.closes > 0 {
      forall more | Happens(Go, x, more)
        ensures After(Go, x, more).closed
      {
        SessionKeeps(Go, x, more);
      }
    } else {
      FailureReopens(x);
    }
  }

  lemma FailureReopens(x: Shared)
    requires SessionOk(Go, x) && x.closed && x.closes == 0
    ensures x.closing == 1 && Happens(Go, x, [CloseEnds(false)]) && !After(Go, x, [CloseEnds(false)]).closed
  {
    NoEvents(Go, React(Go, x, CloseEnds(false)));
    assert [CloseEnds(false)] + [] == [CloseEnds(false)];
    FirstEvent(Go, x, CloseEnds(false), []);
  }

  /** While a close request is in flight, a second `Close` finds the flag set and reports success at once; the request may
      yet fail, and then the next request is accepted again. */
  lemma EarlySuccessMayBeTakenBack(events: seq<Event>, initial: bool)
    requires Happens(Go, Opened(), events)
    requires var x := After(Go, Opened(), events); x.closed && x.closes == 0
    ensures var x := After(Go, Opened(), events);
            var more := [CloseBegins, CloseEnds(false), DoBegins(initial)];
            && React(Go, x, CloseBegins) == x
            && Happens(Go, x, more) && !After(Go, x, more).closed && After(Go, x, more).refused == x.refused
  {
    hide Happens, After, SessionOk, Opened;
    NewSession(Go);
    SessionKeeps(Go, Opened(), events);
    var x := After(Go, Opened(), events);
    FailureReopens(x);
    ThreeEvents(Go, x, CloseBegins, CloseEnds(false), DoBegins(initial));
  }

  // ----- closing a TypeScript session -------------------------------------------------------

  /** No close begins on an open session while another is in flight. */
  predicate NoOverlap(d: Dialect, x: Shared, events: seq<Event>)
    requires Happens(d, x, events)
    decreases |events|
  {
    events == []
    || ((events[0].CloseBegins? && !x.closed ==> x.closing == 0) && NoOverlap(d, React(d, x, events[0]), events[1..]))
  }

  /** At every moment at most one close request is in flight or has succeeded, the two together. */
  predicate OneClose(d: Dialect, x: Shared, events: seq<Event>)
    requires Happens(d, x, events)
    decreases |events|
  {
    x.closing + x.closes <= 1 && (events == [] || OneClose(d, React(d, x, events[0]), events[1..]))
  }

  lemma {:induction false} OneCloseExactly(d: Dialect, x: Shared, events: seq<Event>)
    requires SessionOk(d, x) && x.closing + x.closes <= 1 && Happens(d, x, events)
    ensures OneClose(d, x, events) <==> NoOverlap(d, x, events)
    ensures d.Go? ==> NoOverlap(d, x, events)
    decreases |events|
  {
    if events != [] {
      var x' := React(d, x, events[0]);
      if x'.closing + x'.closes <= 1 {
        OneCloseExactly(d, x', events[1..]);
      }
    }
  }

  /** Over every run, a TypeScript session has at most one close in flight or done, at every moment, if and only if no
      `close` is called on the open session while another is in flight. A Go session needs no such care. */
  lemma TypeScriptClosesOnceExactly(events: seq<Event>)
    requires Happens(TypeScript, Opened(), events)
    ensures OneClose(TypeScript, Opened(), events) <==> NoOverlap(TypeScript, Opened(), events)
  {
    hide Happens, OneClose, NoOverlap;
    OneCloseExactly(TypeScript, Opened(), events);
  }

  lemma GoAlwaysClosesOnce(events: seq<Event>)
    requires Happens(Go, Opened(), events)
    ensures OneClose(Go, Opened(), events)
  {
    hide Happens, OneClose, NoOverlap;
    OneCloseExactly(Go, Opened(), events);
  }

  /** Whenever a `close` is called on an open TypeScript session while another is in flight, a second request goes out,
      and both may succeed. */
  lemma TypeScriptMayCloseTwice(events: seq<Event>)
    requires Happens(TypeScript, Opened(), events)
    requires var x := After(TypeScript, Opened(), events); !x.closed && x.closing > 0
    ensures var x := After(TypeScript, Opened(), events);
            var more := [CloseBegins, CloseEnds(true), CloseEnds(true)];
            && React(TypeScript, x, CloseBegins).closing == x.closing + 1
            && Happens(TypeScript, x, more) && After(TypeScript, x, more).closes == x.closes + 2
  {
    hide Happens, After, Opened;
    ThreeEvents(TypeScript, After(TypeScript, Opened(), events), CloseBegins, CloseEnds(true), CloseEnds(true));
  }

  lemma ThreeEvents(d: Dialect, x: Shared, a: Event, b: Event, c: Event)
    requires Possible(x, a) && Possible(React(d, x, a), b) && Possible(React(d, React(d, x, a), b), c)
    ensures Happens(d, x, [a, b, c]) && After(d, x, [a, b, c]) == React(d, React(d, React(d, x, a), b), c)
  {
    hide Possible, React, Happens, After;
    var (x1, x2) := (React(d, x, a), React(d, React(d, x, a), b));
    NoEvents(d, React(d, x2, c));
    assert [c] + [] == [c] && [b] + [c] == [b, c] && [a] + [b, c] == [a, b, c];
    FirstEvent(d, x2, c, []);
    FirstEvent(d, x1, b, [c]);
    FirstEvent(d, x, a, [b, c]);
  }

  lemma NoEvents(d: Dialect, x: Shared)
    ensures Happens(d, x, []) && After(d, x, []) == x
  {
  }

  lemma FirstEvent(d: Dialect, x: Shared, e: Event, rest: seq<Event>)
    requires Possible(x, e) && Happens(d, React(d, x, e), rest)
    ensures Happens(d, x, [e] + rest) && After(d, x, [e] + rest) == After(d, React(d, x, e), rest)
  {
    hide Possible, React;
    assert ([e] + rest)[1..] == rest;
  }

  /** The Go session: each method is one critical section. */
  class Session {
    const initialURL: string
    const initialRoute: string
    var usedInitial: bool
    var closed: bool
    ghost var closing: nat
    ghost var closes: nat
    ghost var initialUses: nat
    ghost var refused: nat

    ghost function Snapshot(): Shared
      reads this
    {
      Shared(closed, usedInitial, closing, closes, initialUses, refused)
    }

    constructor (initialURL: string, initialRoute: string)
      ensures Snapshot() == Opened() && this.initialURL == initialURL && this.initialRoute == initialRoute
    {
      this.initialURL, this.initialRoute := initialURL, initialRoute;
      usedInitial, closed, closing, closes, initialUses, refused := false, false, 0, 0, 0, 0;
    }

    /** The route to use: the initial one, or `None` in the result for one still to be asked for. */
    method BeginDo(url: string) returns (r: Result<Option<string>, string>)
      modifies this
      ensures Snapshot() == React(Go, old(Snapshot()), DoBegins(url == initialURL))
      ensures r == if old(closed) then Failure("session is closed")
                   else if url == initialURL && !old(usedInitial) then Success(Some(initialRoute))
                   else Success(None)
      ensures closed == old(closed) && usedInitial == (old(usedInitial) || (!closed && url == initialURL))
      ensures initialUses == old(initialUses) + if r.Success? && r.value.Some? then 1 else 0
    {
      if closed {
        refused := refused + 1;
        return Failure("session is closed");
      }
      if !usedInitial && url == initialURL {
        usedInitial := true;
        initialUses := initialUses + 1;
        return Success(Some(initialRoute));
      }
      return Success(None);
    }

    /** Whether a close request is to be sent. */
    method BeginClose() returns (send: bool)
      modifies this
      ensures Snapshot() == React(Go, old(Snapshot()), CloseBegins) && send == !old(closed)
    {
      if closed {
        return false;
      }
      closed := true;
      closing := closing + 1;
      return true;
    }

    method EndClose(ok: bool)
      requires closing > 0 && SessionOk(Go, Snapshot())
      modifies this
      ensures Snapshot() == React(Go, old(Snapshot()), CloseEnds(ok))
    {
      closing := closing - 1;
      if ok {
        closes := closes + 1;
      } else {
        closed := false;
      }
    }
  }
}

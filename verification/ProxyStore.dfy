/** The persistent state behind the proxy: contexts, routes, one-time tickets, proxy sessions and upstream proxies, with the
    uniqueness, reference and cascade rules of the schema. Each operation is one transaction; it commits or leaves no trace.
    Ids, tokens (as their digests) and the clock are inputs. */
module ProxyStore {
  import opened Wrappers
  import opened Labels

  type Digest = nat
  type Time = int

  const TICKET_LIFETIME: Time := 120

  datatype Origin = Origin(scheme: string, host: string, port: nat)

  datatype Context = Context(owner: Uuid, currentURL: string, egress: Option<Uuid>, compatible: bool, closed: bool)
  datatype RouteKey = RouteKey(context: Uuid, origin: Origin)
  datatype Ticket = Ticket(owner: Uuid, context: Uuid, expires: Time, used: bool)
  datatype Session = Session(owner: Uuid, expires: Time)

  /** `index` is the UNIQUE index of the routes table, `routes` its primary key; `cookies` is the context of each cookie
      row, whose contents are the subject of module `Cookies`. */
  datatype Db = Db(contexts: map<Uuid, Context>, routes: map<Uuid, RouteKey>, index: map<RouteKey, Uuid>,
                   tickets: map<Digest, Ticket>, cookies: map<Uuid, Uuid>, sessions: map<Digest, Session>,
                   upstreams: set<Uuid>)

  const EMPTY := Db(map[], map[], map[], map[], map[], map[], {})

  /** The CHECK constraints on a route. */
  predicate ValidOrigin(o: Origin) {
    (o.scheme == "http" || o.scheme == "https") && 1 <= o.port <= 65535
  }

  predicate Open(db: Db, context: Uuid, user: Uuid) {
    context in db.contexts && !db.contexts[context].closed && db.contexts[context].owner == user
  }

  // ----- the transactions -------------------------------------------------------------------

  /** `createRoute`: INSERT ... ON CONFLICT DO UPDATE ... RETURNING id. */
  function InsertRoute(db: Db, key: RouteKey, spare: Uuid): Option<(Db, Uuid)> {
    if !ValidOrigin(key.origin) || key.context !in db.contexts then None
    else if key in db.index then Some((db, db.index[key]))
    else if spare in db.routes then None
    else Some((db.(routes := db.routes[spare := key], index := db.index[key := spare]), spare))
  }

  function InsertTicket(db: Db, digest: Digest, ticket: Ticket): Option<Db> {
    if digest in db.tickets then None else Some(db.(tickets := db.tickets[digest := ticket]))
  }

  datatype NewContext = NewContext(owner: Uuid, url: string, origin: Origin, egress: Option<Uuid>, compatible: bool)
  datatype Spare = Spare(context: Uuid, route: Uuid, ticket: Digest)

  function CreateContext(db: Db, input: NewContext, spare: Spare, now: Time): Option<(Db, Uuid)> {
    if spare.context in db.contexts || (input.egress.Some? && input.egress.value !in db.upstreams) then None
    else
      var db1 := db.(contexts := db.contexts[spare.context :=
                       Context(input.owner, input.url, input.egress, input.compatible, false)]);
      match InsertRoute(db1, RouteKey(spare.context, input.origin), spare.route)
      case None => None
      case Some((db2, route)) =>
        match InsertTicket(db2, spare.ticket, Ticket(input.owner, spare.context, now + TICKET_LIFETIME, false))
        case None => None
        case Some(db3) => Some((db3, route))
  }

  function CreateTicket(db: Db, user: Uuid, context: Uuid, digest: Digest, now: Time): Option<Db> {
    if !Open(db, context, user) then None
    else InsertTicket(db, digest, Ticket(user, context, now + TICKET_LIFETIME, false))
  }

  function ResolveRoute(db: Db, context: Uuid, user: Uuid, origin: Origin, spare: Uuid): Option<(Db, Uuid)> {
    if !Open(db, context, user) then None else InsertRoute(db, RouteKey(context, origin), spare)
  }

  function ConsumeTicket(db: Db, digest: Digest, session: Digest, lifetime: Time, now: Time): Option<(Db, Ticket)> {
    if digest !in db.tickets || db.tickets[digest].used || db.tickets[digest].expires <= now then None
    else if session in db.sessions then None
    else
      var ticket := db.tickets[digest];
      Some((db.(tickets := db.tickets[digest := ticket.(used := true)],
                sessions := db.sessions[session := Session(ticket.owner, now + lifetime)]), ticket))
  }

  function CloseContext(db: Db, context: Uuid, user: Uuid): Option<Db> {
    if !Open(db, context, user) then None
    else Some(db.(contexts := db.contexts[context := db.contexts[context].(closed := true)]))
  }

  function UpdateCurrentURL(db: Db, context: Uuid, url: string): Db {
    if context in db.contexts then db.(contexts := db.contexts[context := db.contexts[context].(currentURL := url)]) else db
  }

  /** A new row of the cookies table refers to a context that exists. */
  function InsertCookie(db: Db, row: Uuid, context: Uuid): Option<Db> {
    if context !in db.contexts || row in db.cookies then None else Some(db.(cookies := db.cookies[row := context]))
  }

  function DeleteCookie(db: Db, row: Uuid): Db {
    db.(cookies := db.cookies - {row})
  }

  /** The contexts that do not use an upstream. */
  function Unaffected(contexts: map<Uuid, Context>, upstream: Uuid): set<Uuid> {
    set c | c in contexts && contexts[c].egress != Some(upstream)
  }

  function ContextsIn(contexts: map<Uuid, Context>, kept: set<Uuid>): map<Uuid, Context> {
    map c | c in contexts && c in kept :: contexts[c]
  }

  function RoutesIn(routes: map<Uuid, RouteKey>, kept: set<Uuid>): map<Uuid, RouteKey> {
    map r | r in routes && routes[r].context in kept :: routes[r]
  }

  function IndexIn(index: map<RouteKey, Uuid>, kept: set<Uuid>): map<RouteKey, Uuid> {
    map k | k in index && k.context in kept :: index[k]
  }

  function TicketsIn(tickets: map<Digest, Ticket>, kept: set<Uuid>): map<Digest, Ticket> {
    map t | t in tickets && tickets[t].context in kept :: tickets[t]
  }

  function CookiesIn(cookies: map<Uuid, Uuid>, kept: set<Uuid>): map<Uuid, Uuid> {
    map r | r in cookies && cookies[r] in kept :: cookies[r]
  }

  /** Deleting all contexts but some deletes the rows that refer to them. */
  function Cascade(db: Db, kept: set<Uuid>): Db {
    Db(ContextsIn(db.contexts, kept), RoutesIn(db.routes, kept), IndexIn(db.index, kept),
       TicketsIn(db.tickets, kept), CookiesIn(db.cookies, kept), db.sessions, db.upstreams)
  }

  /** `UpstreamStore.Delete`: the contexts that use the upstream go first, and what refers to them cascades. */
  function DeleteUpstream(db: Db, upstream: Uuid): Option<Db> {
    if upstream !in db.upstreams then None
    else
      var db' := Cascade(db, Unaffected(db.contexts, upstream));
      Some(db'.(upstreams := db.upstreams - {upstream}))
  }

  datatype Route = Route(id: Uuid, context: Uuid, user: Uuid, origin: Origin, egress: Option<Uuid>, compatible: bool)

  function RouteByLabel(db: Db, name: string): Option<Route> {
    match Parse(name)
    case None => None
    case Some(id) =>
      if id !in db.routes || db.routes[id].context !in db.contexts || db.contexts[db.routes[id].context].closed then None
      else
        var key := db.routes[id];
        var c := db.contexts[key.context];
        Some(Route(id, key.context, c.owner, key.origin, c.egress, c.compatible))
  }

  // ----- runs -------------------------------------------------------------------------------

  datatype Op =
    | DoCreateContext(input: NewContext, spare: Spare, now: Time)
    | DoCreateTicket(user: Uuid, context: Uuid, digest: Digest, now: Time)
    | DoResolveRoute(context: Uuid, user: Uuid, origin: Origin, spareRoute: Uuid)
    | DoConsumeTicket(digest: Digest, session: Digest, lifetime: Time, now: Time)
    | DoCloseContext(context: Uuid, user: Uuid)
    | DoUpdateCurrentURL(context: Uuid, url: string)
    | DoInsertCookie(row: Uuid, context: Uuid)
    | DoDeleteCookie(row: Uuid)
    | DoCreateUpstream(upstream: Uuid)
    | DoDeleteUpstream(upstream: Uuid)
    | Abandon   // a transaction that fails at any point before its commit

  function Attempt(db: Db, op: Op): Option<Db> {
    match op
    case DoCreateContext(input, spare, now) =>
      (match CreateContext(db, input, spare, now) case None => None case Some((db', _)) => Some(db'))
    case DoCreateTicket(user, context, digest, now) => CreateTicket(db, user, context, digest, now)
    case DoResolveRoute(context, user, origin, spare) =>
      (match ResolveRoute(db, context, user, origin, spare) case None => None case Some((db', _)) => Some(db'))
    case DoConsumeTicket(digest, session, lifetime, now) =>
      (match ConsumeTicket(db, digest, session, lifetime, now) case None => None case Some((db', _)) => Some(db'))
    case DoCloseContext(context, user) => CloseContext(db, context, user)
    case DoUpdateCurrentURL(context, url) => Some(UpdateCurrentURL(db, context, url))
    case DoInsertCookie(row, context) => InsertCookie(db, row, context)
    case DoDeleteCookie(row) => Some(DeleteCookie(db, row))
    case DoCreateUpstream(upstream) =>
      if upstream in db.upstreams then None else Some(db.(upstreams := db.upstreams + {upstream}))
    case DoDeleteUpstream(upstream) => DeleteUpstream(db, upstream)
    case Abandon => None
  }

  function Step(db: Db, op: Op): Db {
    match Attempt(db, op) case None => db case Some(db') => db'
  }

  function Exec(db: Db, ops: seq<Op>): Db {
    if ops == [] then db else Step(Exec(db, ops[..|ops| - 1]), ops[|ops| - 1])
  }

  // ----- the invariant ----------------------------------------------------------------------

  /** Route ids and (context, scheme, host, port) keys are in bijection. */
  ghost predicate Bijective(routes: map<Uuid, RouteKey>, index: map<RouteKey, Uuid>) {
    && (forall id :: id in routes ==> routes[id] in index && index[routes[id]] == id)
    && (forall key :: key in index ==> index[key] in routes && routes[index[key]] == key)
  }

  ghost predicate RoutesReferToContexts(db: Db) {
    forall id :: id in db.routes ==> db.routes[id].context in db.contexts && ValidOrigin(db.routes[id].origin)
  }

  /** Tickets belong to the owner of their context. */
  ghost predicate TicketsReferToContexts(db: Db) {
    forall t :: t in db.tickets ==>
      db.tickets[t].context in db.contexts && db.contexts[db.tickets[t].context].owner == db.tickets[t].owner
  }

  ghost predicate CookiesReferToContexts(db: Db) {
    forall r :: r in db.cookies ==> db.cookies[r] in db.contexts
  }

  ghost predicate EgressExists(db: Db) {
    forall c :: c in db.contexts && db.contexts[c].egress.Some? ==> db.contexts[c].egress.value in db.upstreams
  }

  ghost predicate Inv(db: Db) {
    && Bijective(db.routes, db.index) && RoutesReferToContexts(db) && TicketsReferToContexts(db)
    && CookiesReferToContexts(db) && EgressExists(db)
  }

  lemma InsertRouteKeeps(db: Db, key: RouteKey, spare: Uuid)
    requires Inv(db) && InsertRoute(db, key, spare).Some?
    ensures var (db', id) := InsertRoute(db, key, spare).value;
            && Inv(db') && id in db'.routes && db'.routes[id] == key && db'.index[key] == id
            && db'.contexts == db.contexts && db'.tickets == db.tickets
            && db'.cookies == db.cookies && db'.sessions == db.sessions && db'.upstreams == db.upstreams
            && (forall k :: k in db.index ==> k in db'.index && db'.index[k] == db.index[k])
  {
    hide ValidOrigin, Bijective;
    Indexed(db.routes, db.index, key);
    if key !in db.index && spare !in db.routes {
      NewIndexed(db.routes, db.index, key, spare);
    }
  }

  lemma Indexed(routes: map<Uuid, RouteKey>, index: map<RouteKey, Uuid>, key: RouteKey)
    requires Bijective(routes, index)
    ensures key in index ==> index[key] in routes && routes[index[key]] == key
  {
  }

  lemma NewIndexed(routes: map<Uuid, RouteKey>, index: map<RouteKey, Uuid>, key: RouteKey, id: Uuid)
    requires Bijective(routes, index) && key !in index && id !in routes
    ensures Bijective(routes[id := key], index[key := id])
  {
  }

  lemma CreateContextKeeps(db: Db, input: NewContext, spare: Spare, now: Time)
    requires Inv(db) && CreateContext(db, input, spare, now).Some?
    ensures Inv(CreateContext(db, input, spare, now).value.0)
  {
    hide ValidOrigin, InsertRoute, InsertTicket, Inv;
    var db1 := db.(contexts := db.contexts[spare.context :=
                     Context(input.owner, input.url, input.egress, input.compatible, false)]);
    NewContextKeeps(db, spare.context, db1.contexts[spare.context]);
    InsertRouteKeeps(db1, RouteKey(spare.context, input.origin), spare.route);
    NewTicketKeeps(InsertRoute(db1, RouteKey(spare.context, input.origin), spare.route).value.0, spare.ticket,
                   Ticket(input.owner, spare.context, now + TICKET_LIFETIME, false));
  }

  lemma NewContextKeeps(db: Db, id: Uuid, c: Context)
    requires Inv(db) && id !in db.contexts && (c.egress.Some? ==> c.egress.value in db.upstreams)
    ensures Inv(db.(contexts := db.contexts[id := c]))
  {
    hide ValidOrigin, Bijective;
  }

  lemma NewTicketKeeps(db: Db, digest: Digest, t: Ticket)
    requires Inv(db) && t.context in db.contexts && db.contexts[t.context].owner == t.owner
    ensures InsertTicket(db, digest, t).Some? ==> Inv(InsertTicket(db, digest, t).value)
  {
    hide ValidOrigin, Bijective;
  }

  lemma DeleteUpstreamKeeps(db: Db, upstream: Uuid)
    requires Inv(db) && DeleteUpstream(db, upstream).Some?
    ensures Inv(DeleteUpstream(db, upstream).value)
  {
    hide ValidOrigin;
  }

  lemma StepKeepsInv(db: Db, op: Op)
    requires Inv(db)
    ensures Inv(Step(db, op))
  {
    hide ValidOrigin, InsertRoute, CreateContext, DeleteUpstream, Bijective;
    match op
    case DoCreateContext(input, spare, now) =>
      if CreateContext(db, input, spare, now).Some? {
        CreateContextKeeps(db, input, spare, now);
      }
    case DoResolveRoute(context, user, origin, spare) =>
      if ResolveRoute(db, context, user, origin, spare).Some? {
        InsertRouteKeeps(db, RouteKey(context, origin), spare);
      }
    case DoDeleteUpstream(upstream) =>
      if DeleteUpstream(db, upstream).Some? {
        DeleteUpstreamKeeps(db, upstream);
      }
    case _ =>
  }

  lemma {:induction false} Reachable(ops: seq<Op>)
    ensures Inv(Exec(EMPTY, ops))
  {
    if ops != [] {
      Reachable(ops[..|ops| - 1]);
      StepKeepsInv(Exec(EMPTY, ops[..|ops| - 1]), ops[|ops| - 1]);
    }
  }

  /** In every reachable state no route id serves two keys, so the ids of different contexts never coincide. */
  lemma RouteIdsDistinct(ops: seq<Op>, a: RouteKey, b: RouteKey)
    requires var db := Exec(EMPTY, ops); a in db.index && b in db.index && db.index[a] == db.index[b]
    ensures a == b
  {
    hide Exec;
    Reachable(ops);
  }

  // ----- what resolving a route gives -------------------------------------------------------

  /** The label of a resolved route leads back to exactly that origin in that context, and resolving the origin again,
      whatever id is on offer, returns the same route and changes nothing. */
  lemma ResolveThenLookUp(db: Db, context: Uuid, user: Uuid, origin: Origin, spare: Uuid, other: Uuid)
    requires Inv(db) && ResolveRoute(db, context, user, origin, spare).Some?
    ensures var (db', id) := ResolveRoute(db, context, user, origin, spare).value;
            && RouteByLabel(db', Print(id))
               == Some(Route(id, context, user, origin, db.contexts[context].egress, db.contexts[context].compatible))
            && ResolveRoute(db', context, user, origin, other) == Some((db', id))
  {
    InsertRouteKeeps(db, RouteKey(context, origin), spare);
    var id := ResolveRoute(db, context, user, origin, spare).value.1;
    RoundTrip(id, "");
    hide Print, Parse, Bijective;
  }

  // ----- what a context keeps over a run ----------------------------------------------------

  /** No operation of the run creates context `c`: ids are drawn at random and never drawn twice. */
  ghost predicate NeverCreated(ops: seq<Op>, c: Uuid) {
    forall op :: op in ops && op.DoCreateContext? ==> op.spare.context != c
  }

  lemma ContextStep(db: Db, op: Op, c: Uuid)
    requires c in Step(db, op).contexts
    requires op.DoCreateContext? ==> op.spare.context != c
    ensures c in db.contexts
    ensures var (before, after) := (db.contexts[c], Step(db, op).contexts[c]);
            && after.owner == before.owner && after.egress == before.egress && after.compatible == before.compatible
            && (before.closed ==> after.closed)
    ensures forall key :: key in db.index && key.context == c
              ==> key in Step(db, op).index && Step(db, op).index[key] == db.index[key]
  {
    hide CreateContext, ResolveRoute, ConsumeTicket, CreateTicket, CloseContext, DeleteUpstream, InsertCookie,
         UpdateCurrentURL;
    match op
    case DoCreateContext(input, spare, now) => CreateCarries(db, input, spare, now, c);
    case DoResolveRoute(context, user, origin, spare) => ResolveCarries(db, context, user, origin, spare);
    case DoDeleteUpstream(upstream) => DeleteCarries(db, upstream, c);
    case DoUpdateCurrentURL(context, url) => UpdateCarries(db, context, url, c);
    case _ => OthersCarry(db, op, c);
  }

  lemma CreateCarries(db: Db, input: NewContext, spare: Spare, now: Time, c: Uuid)
    requires spare.context != c
    ensures CreateContext(db, input, spare, now).Some? ==>
              var db' := CreateContext(db, input, spare, now).value.0;
              && (c in db'.contexts <==> c in db.contexts) && (c in db.contexts ==> db'.contexts[c] == db.contexts[c])
              && forall k :: k in db.index ==> k in db'.index && db'.index[k] == db.index[k]
  {
    hide InsertRoute;
    var db1 := db.(contexts := db.contexts[spare.context :=
                     Context(input.owner, input.url, input.egress, input.compatible, false)]);
    InsertRouteGrows(db1, RouteKey(spare.context, input.origin), spare.route);
  }

  lemma ResolveCarries(db: Db, context: Uuid, user: Uuid, origin: Origin, spare: Uuid)
    ensures ResolveRoute(db, context, user, origin, spare).Some? ==>
              var db' := ResolveRoute(db, context, user, origin, spare).value.0;
              db'.contexts == db.contexts && forall k :: k in db.index ==> k in db'.index && db'.index[k] == db.index[k]
  {
    hide InsertRoute;
    InsertRouteGrows(db, RouteKey(context, origin), spare);
  }

  lemma DeleteCarries(db: Db, upstream: Uuid, c: Uuid)
    ensures DeleteUpstream(db, upstream).Some? && c in DeleteUpstream(db, upstream).value.contexts ==>
              var db' := DeleteUpstream(db, upstream).value;
              && c in db.contexts && db'.contexts[c] == db.contexts[c]
              && forall key :: key in db.index && key.context == c ==> key in db'.index && db'.index[key] == db.index[key]
  {
    hide Cascade, Unaffected;
    if upstream in db.upstreams && c in Cascade(db, Unaffected(db.contexts, upstream)).contexts {
      CascadeKeeps(db, Unaffected(db.contexts, upstream), c);
    }
  }

  lemma UpdateCarries(db: Db, context: Uuid, url: string, c: Uuid)
    ensures var db' := UpdateCurrentURL(db, context, url);
            && db'.index == db.index && (c in db'.contexts <==> c in db.contexts)
            && (c in db.contexts ==>
                  db'.contexts[c] == db.contexts[c].(currentURL := if context == c then url else db.contexts[c].currentURL))
  {
  }

  /** The other operations leave the routes alone, and the contexts but for a flag. */
  lemma OthersCarry(db: Db, op: Op, c: Uuid)
    requires !op.DoCreateContext? && !op.DoResolveRoute? && !op.DoDeleteUpstream? && !op.DoUpdateCurrentURL?
    ensures var db' := Step(db, op);
            && db'.index == db.index && (c in db'.contexts <==> c in db.contexts)
            && (c in db.contexts ==>
                  var (before, after) := (db.contexts[c], db'.contexts[c]);
                  after == before.(closed := after.closed) && (before.closed ==> after.closed))
  {
    hide CreateContext, ResolveRoute, DeleteUpstream, InsertRoute, ValidOrigin, UpdateCurrentURL;
  }

  lemma InsertRouteGrows(db: Db, key: RouteKey, spare: Uuid)
    ensures InsertRoute(db, key, spare).Some? ==>
              var db' := InsertRoute(db, key, spare).value.0;
              db'.contexts == db.contexts && forall k :: k in db.index ==> k in db'.index && db'.index[k] == db.index[k]
  {
    hide ValidOrigin;
  }

  lemma CascadeKeeps(db: Db, kept: set<Uuid>, c: Uuid)
    requires c in Cascade(db, kept).contexts
    ensures c in kept && c in db.contexts && Cascade(db, kept).contexts[c] == db.contexts[c]
    ensures forall key :: key in db.index && key.context == c
              ==> key in Cascade(db, kept).index && Cascade(db, kept).index[key] == db.index[key]
  {
  }

  /** Over any run a surviving context keeps its owner, its egress and its routes, and stays closed once closed. */
  lemma {:induction false} ContextKeeps(db: Db, ops: seq<Op>, c: Uuid)
    requires NeverCreated(ops, c) && c in Exec(db, ops).contexts
    ensures c in db.contexts
    ensures var (before, after) := (db.contexts[c], Exec(db, ops).contexts[c]);
            && after.owner == before.owner && after.egress == before.egress && after.compatible == before.compatible
            && (before.closed ==> after.closed)
    ensures forall key :: key in db.index && key.context == c
              ==> key in Exec(db, ops).index && Exec(db, ops).index[key] == db.index[key]
  {
    hide Step;
    if ops != [] {
      var front, last := ops[..|ops| - 1], ops[|ops| - 1];
      ContextStep(Exec(db, front), last, c);
      ContextKeeps(db, front, c);
    }
  }

  /** A context that has been closed never again yields a route, by name or by origin, or a ticket. */
  lemma ClosedYieldsNothing(db: Db, ops: seq<Op>, c: Uuid, user: Uuid, origin: Origin, spare: Uuid, digest: Digest,
                            now: Time, name: string)
    requires c in db.contexts && db.contexts[c].closed && NeverCreated(ops, c)
    ensures var db' := Exec(db, ops);
            && ResolveRoute(db', c, user, origin, spare) == None
            && CreateTicket(db', user, c, digest, now) == None
            && (RouteByLabel(db', name).Some? ==> RouteByLabel(db', name).value.context != c)
  {
    hide Exec, Parse;
    if c in Exec(db, ops).contexts {
      ContextKeeps(db, ops, c);
    }
  }

  /** Deleting an upstream leaves no context that uses it, and no route, ticket or cookie of a context that did. */
  lemma DeletedUpstreamIsForgotten(db: Db, upstream: Uuid)
    requires Inv(db) && DeleteUpstream(db, upstream).Some?
    ensures var db' := DeleteUpstream(db, upstream).value;
            && upstream !in db'.upstreams
            && (forall c :: c in db'.contexts ==> db'.contexts[c].egress != Some(upstream))
            && (forall c :: c in db.contexts && db.contexts[c].egress != Some(upstream)
                  ==> c in db'.contexts && db'.contexts[c] == db.contexts[c])
            && (forall r :: r in db'.routes ==> db'.routes[r].context in db'.contexts)
            && (forall r :: r in db'.cookies ==> db'.cookies[r] in db'.contexts)
            && (forall t :: t in db'.tickets ==> db'.tickets[t].context in db'.contexts)
            && db'.sessions == db.sessions
  {
    DeleteUpstreamKeeps(db, upstream);
  }

  // ----- tickets ----------------------------------------------------------------------------

  datatype Event =
    | Issued(digest: Digest, owner: Uuid, context: Uuid, at: Time)
    | Redeemed(digest: Digest, session: Digest, owner: Uuid, context: Uuid, at: Time)
    | Closed(context: Uuid)
    | Nothing

  function EventOf(db: Db, op: Op): Event {
    if Attempt(db, op).None? then Nothing
    else
      match op
      case DoCreateContext(input, spare, now) => Issued(spare.ticket, input.owner, spare.context, now)
      case DoCreateTicket(user, context, digest, now) => Issued(digest, user, context, now)
      case DoConsumeTicket(digest, session, _, now) =>
        Redeemed(digest, session, db.tickets[digest].owner, db.tickets[digest].context, now)
      case DoCloseContext(context, _) => Closed(context)
      case _ => Nothing
  }

  function History(ops: seq<Op>): (events: seq<Event>)
    ensures |events| == |ops|
  {
    if ops == [] then []
    else History(ops[..|ops| - 1]) + [EventOf(Exec(EMPTY, ops[..|ops| - 1]), ops[|ops| - 1])]
  }

  function IssuedCount(events: seq<Event>, d: Digest): nat {
    if events == [] then 0
    else
      var last := events[|events| - 1];
      IssuedCount(events[..|events| - 1], d) + if last.Issued? && last.digest == d then 1 else 0
  }

  function RedeemedCount(events: seq<Event>, d: Digest): nat {
    if events == [] then 0
    else
      var last := events[|events| - 1];
      RedeemedCount(events[..|events| - 1], d) + if last.Redeemed? && last.digest == d then 1 else 0
  }

  lemma CountSnoc(events: seq<Event>, e: Event, d: Digest)
    ensures IssuedCount(events + [e], d) == IssuedCount(events, d) + if e.Issued? && e.digest == d then 1 else 0
    ensures RedeemedCount(events + [e], d) == RedeemedCount(events, d) + if e.Redeemed? && e.digest == d then 1 else 0
  {
    assert (events + [e])[..|events|] == events;
  }

  function Unused(db: Db, d: Digest): nat {
    if d in db.tickets && !db.tickets[d].used then 1 else 0
  }

  /** What one operation does to one ticket. */
  lemma TicketStep(db: Db, op: Op, d: Digest)
    ensures var (db', e) := (Step(db, op), EventOf(db, op));
            && Unused(db', d) <= Unused(db, d) + (if e.Issued? && e.digest == d then 1 else 0)
                                - (if e.Redeemed? && e.digest == d then 1 else 0)
            && (d in db'.tickets ==>
                  var t := db'.tickets[d];
                  (d in db.tickets && db.tickets[d].(used := t.used) == t)
                  || e == Issued(d, t.owner, t.context, t.expires - TICKET_LIFETIME))
            && (e.Redeemed? && e.digest == d ==>
                  d in db.tickets && e.at < db.tickets[d].expires
                  && e.owner == db.tickets[d].owner && e.context == db.tickets[d].context
                  && db'.sessions.Keys == db.sessions.Keys + {e.session} && e.session !in db.sessions)
            && (!e.Redeemed? ==> db'.sessions == db.sessions)
  {
    hide InsertRoute;
    InsertRouteLeavesTickets();
  }

  lemma InsertRouteLeavesTickets()
    ensures forall db0: Db, key, spare {:trigger InsertRoute(db0, key, spare)} :: InsertRoute(db0, key, spare).Some? ==>
              InsertRoute(db0, key, spare).value.0.tickets == db0.tickets
              && InsertRoute(db0, key, spare).value.0.sessions == db0.sessions
  {
  }

  /** In every run the sessions opened with a ticket never outnumber the times it was issued, counting the ticket itself
      while it can still be used: issued once, it opens at most one session. */
  lemma {:induction false} OneSessionPerTicket(ops: seq<Op>, d: Digest)
    ensures RedeemedCount(History(ops), d) + Unused(Exec(EMPTY, ops), d) <= IssuedCount(History(ops), d)
  {
    hide Step, EventOf, Unused;
    if ops == [] {
      assert Unused(EMPTY, d) == 0 by { NoTickets(d); }
    } else {
      var front, last := ops[..|ops| - 1], ops[|ops| - 1];
      OneSessionPerTicket(front, d);
      TicketStep(Exec(EMPTY, front), last, d);
      CountSnoc(History(front), EventOf(Exec(EMPTY, front), last), d);
    }
  }

  lemma NoTickets(d: Digest)
    ensures Unused(EMPTY, d) == 0
  {
  }

  lemma {:induction false} TicketWasIssued(ops: seq<Op>, d: Digest) returns (j: nat)
    requires d in Exec(EMPTY, ops).tickets
    ensures j < |ops|
    ensures var t := Exec(EMPTY, ops).tickets[d];
            History(ops)[j] == Issued(d, t.owner, t.context, t.expires - TICKET_LIFETIME)
  {
    hide Step, EventOf;
    var front, last := ops[..|ops| - 1], ops[|ops| - 1];
    TicketStep(Exec(EMPTY, front), last, d);
    var t := Exec(EMPTY, ops).tickets[d];
    if EventOf(Exec(EMPTY, front), last) == Issued(d, t.owner, t.context, t.expires - TICKET_LIFETIME) {
      j := |front|;
    } else {
      j := TicketWasIssued(front, d);
    }
  }

  /** Every session was opened within two minutes of the issue of the ticket it came from, for the same user and
      context, and that user owns the context. */
  lemma RedeemedInTime(ops: seq<Op>, op: Op) returns (j: nat)
    requires EventOf(Exec(EMPTY, ops), op).Redeemed?
    ensures j < |ops|
    ensures var e := EventOf(Exec(EMPTY, ops), op); var i := History(ops)[j];
            && i.Issued? && i.digest == e.digest && i.owner == e.owner && i.context == e.context
            && e.at < i.at + 120
            && e.context in Exec(EMPTY, ops).contexts && Exec(EMPTY, ops).contexts[e.context].owner == e.owner
  {
    hide Exec, History;
    var db := Exec(EMPTY, ops);
    var d := EventOf(db, op).digest;
    TicketStep(db, op, d);
    Reachable(ops);
    hide Step, EventOf, Bijective;
    j := TicketWasIssued(ops, d);
  }

  // ----- redeeming a ticket of a closed context ---------------------------------------------

  /** What one operation does to a context that exists before and after it. */
  lemma ClosedStep(db: Db, op: Op, c: Uuid)
    requires c in db.contexts && c in Step(db, op).contexts
    ensures Step(db, op).contexts[c].closed <==> db.contexts[c].closed || EventOf(db, op) == Closed(c)
  {
    hide ValidOrigin;
  }

  lemma IssuedWhileOpen(db: Db, op: Op, d: Digest, owner: Uuid, context: Uuid, at: Time)
    requires EventOf(db, op) == Issued(d, owner, context, at)
    ensures context in Step(db, op).contexts && !Step(db, op).contexts[context].closed
  {
    hide ValidOrigin;
  }

  /** A successful `CloseContext` of `c` after event `j`. */
  ghost predicate ClosedAfter(events: seq<Event>, j: nat, c: Uuid) {
    exists k :: j < k < |events| && events[k] == Closed(c)
  }

  lemma ClosedAfterSnoc(events: seq<Event>, e: Event, j: nat, c: Uuid)
    requires j < |events|
    ensures ClosedAfter(events + [e], j, c) <==> ClosedAfter(events, j, c) || e == Closed(c)
  {
    var all := events + [e];
    if ClosedAfter(events, j, c) {
      var k :| j < k < |events| && events[k] == Closed(c);
      assert all[k] == Closed(c);
    }
    if e == Closed(c) {
      assert all[|events|] == Closed(c);
    }
  }

  lemma NothingAfterLast(events: seq<Event>, c: Uuid)
    requires events != []
    ensures !ClosedAfter(events, |events| - 1, c)
  {
  }

  /** The context of a stored ticket is closed exactly when it was closed after the ticket was issued. */
  lemma {:induction false} TicketContextClosed(ops: seq<Op>, d: Digest) returns (j: nat)
    requires d in Exec(EMPTY, ops).tickets
    ensures j < |ops|
    ensures var t := Exec(EMPTY, ops).tickets[d];
            && History(ops)[j] == Issued(d, t.owner, t.context, t.expires - TICKET_LIFETIME)
            && t.context in Exec(EMPTY, ops).contexts
            && (Exec(EMPTY, ops).contexts[t.context].closed <==> ClosedAfter(History(ops), j, t.context))
  {
    hide Step, EventOf, Bijective, ClosedAfter;
    var front, last := ops[..|ops| - 1], ops[|ops| - 1];
    var db, t := Exec(EMPTY, front), Exec(EMPTY, ops).tickets[d];
    var e := EventOf(db, last);
    Reachable(front);
    Reachable(ops);
    TicketStep(db, last, d);
    assert History(ops) == History(front) + [e];
    if e == Issued(d, t.owner, t.context, t.expires - TICKET_LIFETIME) {
      j := |front|;
      IssuedWhileOpen(db, last, d, t.owner, t.context, t.expires - TICKET_LIFETIME);
      NothingAfterLast(History(ops), t.context);
    } else {
      j := TicketContextClosed(front, d);
      ClosedStep(db, last, t.context);
      ClosedAfterSnoc(History(front), e, j, t.context);
    }
  }

  /** In every reachable state an unused ticket in time opens a session whether or not its context has been closed since
      it was issued. */
  lemma ClosedContextTicketStillRedeems(ops: seq<Op>, d: Digest, session: Digest, lifetime: Time, now: Time) returns (j: nat)
    requires var db := Exec(EMPTY, ops);
             d in db.tickets && !db.tickets[d].used && now < db.tickets[d].expires && session !in db.sessions
    ensures j < |ops|
    ensures var db := Exec(EMPTY, ops); var t := db.tickets[d];
            && History(ops)[j] == Issued(d, t.owner, t.context, t.expires - TICKET_LIFETIME)
            && EventOf(db, DoConsumeTicket(d, session, lifetime, now)) == Redeemed(d, session, t.owner, t.context, now)
            && t.context in db.contexts && (db.contexts[t.context].closed <==> ClosedAfter(History(ops), j, t.context))
  {
    hide Exec, History, ClosedAfter;
    j := TicketContextClosed(ops, d);
  }

  /** A redemption is of a closed context if and only if the context was closed between the ticket's issue and the
      redemption. */
  lemma RedeemedContextClosedExactly(ops: seq<Op>, op: Op) returns (j: nat)
    requires EventOf(Exec(EMPTY, ops), op).Redeemed?
    ensures j < |ops|
    ensures var e := EventOf(Exec(EMPTY, ops), op); var i := History(ops)[j];
            && i.Issued? && i.digest == e.digest && i.owner == e.owner && i.context == e.context
            && e.context in Exec(EMPTY, ops).contexts
            && (Exec(EMPTY, ops).contexts[e.context].closed <==> ClosedAfter(History(ops), j, e.context))
  {
    hide Exec, History, ClosedAfter;
    var db := Exec(EMPTY, ops);
    var d := EventOf(db, op).digest;
    TicketStep(db, op, d);
    hide Step, EventOf;
    j := TicketContextClosed(ops, d);
  }

  /** Operation `op` redeemed a ticket for the session `d`: the ticket was there, unused and in time, the session is its
      owner's for as long as was asked, and the ticket is used from then on. */
  ghost predicate Opens(db: Db, op: Op, db': Db, d: Digest, row: Session) {
    && op.DoConsumeTicket? && op.session == d && op.digest in db.tickets
    && var t := db.tickets[op.digest];
       && !t.used && op.now < t.expires && row == Session(t.owner, op.now + op.lifetime)
       && op.digest in db'.tickets && db'.tickets[op.digest] == Ticket(t.owner, t.context, t.expires, true)
  }

  lemma SessionStep(db: Db, op: Op, d: Digest)
    requires d in Step(db, op).sessions
    ensures var db' := Step(db, op);
            (d in db.sessions && db'.sessions[d] == db.sessions[d]) || Opens(db, op, db', d, db'.sessions[d])
  {
    hide InsertRoute;
    InsertRouteLeavesTickets();
  }

  /** Every session in a reachable table was opened by one redemption of the run, and its row is what that wrote. */
  lemma {:induction false} SessionWasOpened(ops: seq<Op>, d: Digest) returns (j: nat)
    requires d in Exec(EMPTY, ops).sessions
    ensures j < |ops|
    ensures Opens(Exec(EMPTY, ops[..j]), ops[j], Exec(EMPTY, ops[..j + 1]), d, Exec(EMPTY, ops).sessions[d])
  {
    hide Step, Opens;
    j := |ops| - 1;
    var front := ops[..j];
    SessionStep(Exec(EMPTY, front), ops[j], d);
    assert ops[..j + 1] == ops;
    if !Opens(Exec(EMPTY, front), ops[j], Exec(EMPTY, ops), d, Exec(EMPTY, ops).sessions[d]) {
      j := SessionWasOpened(front, d);
      assert front[..j] == ops[..j] && front[..j + 1] == ops[..j + 1];
    }
  }

  // ----- where a context comes from ---------------------------------------------------------

  predicate Updates(op: Op, c: Uuid) {
    op.DoUpdateCurrentURL? && op.context == c
  }

  /** An operation that writes the current URL of a context. */
  predicate SetsURL(op: Op, c: Uuid, url: string) {
    (op.DoCreateContext? && op.spare.context == c && op.input.url == url)
    || (Updates(op, c) && op.url == url)
  }

  ghost predicate Creates(op: Op, c: Uuid, row: Context) {
    op.DoCreateContext? && op.spare.context == c && op.input.owner == row.owner && op.input.egress == row.egress
    && op.input.compatible == row.compatible
  }

  lemma CreatedRow(db: Db, op: Op, c: Uuid)
    requires c in Step(db, op).contexts
    ensures var row := Step(db, op).contexts[c];
            if c in db.contexts then
              && row.owner == db.contexts[c].owner && row.egress == db.contexts[c].egress
              && row.compatible == db.contexts[c].compatible
              && row.currentURL == if Updates(op, c) then op.url else db.contexts[c].currentURL
            else Creates(op, c, row) && SetsURL(op, c, row.currentURL) && !row.closed
  {
    hide CreateContext, ResolveRoute, ConsumeTicket, CreateTicket, CloseContext, DeleteUpstream, InsertCookie,
         UpdateCurrentURL;
    match op
    case DoCreateContext(input, spare, now) => NewRow(db, input, spare, now);
    case DoResolveRoute(context, user, origin, spare) => ResolveCarries(db, context, user, origin, spare);
    case DoDeleteUpstream(upstream) => DeleteCarries(db, upstream, c);
    case DoUpdateCurrentURL(context, url) => UpdateCarries(db, context, url, c);
    case _ => OthersCarry(db, op, c);
  }

  lemma NewRow(db: Db, input: NewContext, spare: Spare, now: Time)
    ensures CreateContext(db, input, spare, now).Some? ==>
              && spare.context !in db.contexts
              && CreateContext(db, input, spare, now).value.0.contexts
                 == db.contexts[spare.context := Context(input.owner, input.url, input.egress, input.compatible, false)]
  {
    hide InsertRoute;
    var db1 := db.(contexts := db.contexts[spare.context :=
                     Context(input.owner, input.url, input.egress, input.compatible, false)]);
    InsertRouteGrows(db1, RouteKey(spare.context, input.origin), spare.route);
  }

  /** Every context in a reachable table was created by an operation of the run with that owner, egress and mode, and its
      current URL is that of its last update, or the one it was created with. */
  lemma {:induction false} ContextWasCreated(ops: seq<Op>, c: Uuid) returns (j: nat, k: nat)
    requires c in Exec(EMPTY, ops).contexts
    ensures j <= k < |ops|
    ensures var row := Exec(EMPTY, ops).contexts[c]; Creates(ops[j], c, row) && SetsURL(ops[k], c, row.currentURL)
    ensures forall m :: k < m < |ops| ==> !Updates(ops[m], c)
  {
    hide Step, Creates;
    var front, last := ops[..|ops| - 1], ops[|ops| - 1];
    var row := Exec(EMPTY, ops).contexts[c];
    CreatedRow(Exec(EMPTY, front), last, c);
    j, k := |ops| - 1, |ops| - 1;
    if c in Exec(EMPTY, front).contexts {
      j, k := ContextWasCreated(front, c);
      SameCreator(ops[j], c, Exec(EMPTY, front).contexts[c], row);
      if Updates(last, c) {
        k := |ops| - 1;
      }
    }
  }

  lemma SameCreator(op: Op, c: Uuid, before: Context, after: Context)
    requires Creates(op, c, before)
    requires after.owner == before.owner && after.egress == before.egress && after.compatible == before.compatible
    ensures Creates(op, c, after)
  {
  }

  /** A context is closed by nobody but its owner. */
  lemma {:induction false} ClosedByItsOwner(ops: seq<Op>, c: Uuid) returns (j: nat)
    requires c in Exec(EMPTY, ops).contexts && Exec(EMPTY, ops).contexts[c].closed
    ensures j < |ops| && ops[j] == DoCloseContext(c, Exec(EMPTY, ops).contexts[c].owner)
  {
    hide Step;
    j := |ops| - 1;
    var db := Exec(EMPTY, ops[..j]);
    CreatedRow(db, ops[j], c);
    if c in db.contexts {
      ClosingStep(db, ops[j], c);
      if db.contexts[c].closed {
        j := ClosedByItsOwner(ops[..j], c);
      }
    }
  }

  lemma ClosingStep(db: Db, op: Op, c: Uuid)
    requires c in db.contexts && c in Step(db, op).contexts && Step(db, op).contexts[c].closed
    ensures db.contexts[c].closed || op == DoCloseContext(c, db.contexts[c].owner)
  {
    hide ValidOrigin;
  }

  /** What `bootstrap` does once a ticket is redeemed: it looks the context up among the open ones and resolves the
      guard's reading of its current URL, and only then hands out the session token. */
  function Deliver(db: Db, context: Uuid, user: Uuid, target: Option<Origin>, spare: Uuid): Option<(Db, Uuid)> {
    if !Open(db, context, user) || target.None? then None else ResolveRoute(db, context, user, target.value, spare)
  }

  /** However much happens between a redemption and the look-up, for a target the guard accepts the look-up succeeds if and
      only if the ticket's context was not closed since the ticket was issued. */
  lemma DeliveredExactly(ops: seq<Op>, d: Digest, target: Origin, spare: Uuid) returns (j: nat)
    requires d in Exec(EMPTY, ops).tickets && ValidOrigin(target) && spare !in Exec(EMPTY, ops).routes
    ensures j < |ops|
    ensures var db := Exec(EMPTY, ops); var t := db.tickets[d];
            && History(ops)[j] == Issued(d, t.owner, t.context, t.expires - TICKET_LIFETIME)
            && (Deliver(db, t.context, t.owner, Some(target), spare).Some? <==> !ClosedAfter(History(ops), j, t.context))
  {
    hide Exec, History, ClosedAfter, ValidOrigin;
    Reachable(ops);
    hide Bijective;
    j := TicketContextClosed(ops, d);
  }

  /** The session row of a redemption always exists, but for a target the guard accepts its token is handed out if and
      only if the context was not closed between the ticket's issue and the redemption. */
  lemma TokenDeliveredExactly(ops: seq<Op>, op: Op, target: Origin, spare: Uuid) returns (j: nat)
    requires EventOf(Exec(EMPTY, ops), op).Redeemed?
    requires ValidOrigin(target) && spare !in Exec(EMPTY, ops).routes
    ensures j < |ops|
    ensures var e := EventOf(Exec(EMPTY, ops), op); var (i, after) := (History(ops)[j], Step(Exec(EMPTY, ops), op));
            && i.Issued? && i.digest == e.digest && i.owner == e.owner && i.context == e.context
            && e.session in after.sessions
            && (Deliver(after, e.context, e.owner, Some(target), spare).Some? <==> !ClosedAfter(History(ops), j, e.context))
  {
    hide Exec, History, ClosedAfter, ValidOrigin;
    var db := Exec(EMPTY, ops);
    Reachable(ops);
    TicketStep(db, op, EventOf(db, op).digest);
    hide Bijective;
    RedemptionLeavesRest(db, op);
    j := RedeemedContextClosedExactly(ops, op);
  }

  lemma RedemptionLeavesRest(db: Db, op: Op)
    requires EventOf(db, op).Redeemed?
    ensures Step(db, op) == db.(tickets := Step(db, op).tickets, sessions := Step(db, op).sessions)
  {
  }

  function AllRedeemed(events: seq<Event>): nat {
    if events == [] then 0
    else AllRedeemed(events[..|events| - 1]) + if events[|events| - 1].Redeemed? then 1 else 0
  }

  function AllIssued(events: seq<Event>): nat {
    if events == [] then 0
    else AllIssued(events[..|events| - 1]) + if events[|events| - 1].Issued? then 1 else 0
  }

  lemma AllSnoc(events: seq<Event>, e: Event)
    ensures AllIssued(events + [e]) == AllIssued(events) + if e.Issued? then 1 else 0
    ensures AllRedeemed(events + [e]) == AllRedeemed(events) + if e.Redeemed? then 1 else 0
  {
    assert (events + [e])[..|events|] == events;
  }

  function UnusedTickets(db: Db): set<Digest> {
    set d | d in db.tickets && !db.tickets[d].used
  }

  lemma UnusedStep(db: Db, op: Op)
    ensures var e := EventOf(db, op);
            |UnusedTickets(Step(db, op))|
            <= |UnusedTickets(db)| + (if e.Issued? then 1 else 0) - (if e.Redeemed? then 1 else 0)
  {
    hide Step, EventOf;
    var (before, after, e) := (UnusedTickets(db), UnusedTickets(Step(db, op)), EventOf(db, op));
    forall d
      ensures d in after ==> d in before || (e.Issued? && e.digest == d)
      ensures e.Redeemed? && e.digest == d ==> d in before && d !in after
    {
      TicketStep(db, op, d);
    }
    if e.Issued? {
      assert after <= before + {e.digest};
      Smaller(after, before + {e.digest});
    } else if e.Redeemed? {
      assert after <= before - {e.digest};
      Smaller(after, before - {e.digest});
    } else {
      Smaller(after, before);
    }
  }

  lemma Smaller(a: set<Digest>, b: set<Digest>)
    requires a <= b
    ensures |a| <= |b|
  {
    assert b == a + (b - a);
  }

  /** Sessions are exactly the redemptions of the run, and never outnumber the tickets issued in it. */
  lemma {:induction false} SessionsNeverExceedTickets(ops: seq<Op>)
    ensures |Exec(EMPTY, ops).sessions| == AllRedeemed(History(ops))
    ensures |Exec(EMPTY, ops).sessions| + |UnusedTickets(Exec(EMPTY, ops))| <= AllIssued(History(ops))
  {
    hide Step, EventOf, UnusedTickets;
    if ops == [] {
      NoUnusedTickets();
    } else {
      var front, last := ops[..|ops| - 1], ops[|ops| - 1];
      SessionsNeverExceedTickets(front);
      var db := Exec(EMPTY, front);
      var e := EventOf(db, last);
      UnusedStep(db, last);
      TicketStep(db, last, if e.Redeemed? then e.digest else 0);
      AllSnoc(History(front), e);
      assert |db.sessions| == |db.sessions.Keys| && |Step(db, last).sessions| == |Step(db, last).sessions.Keys|;
    }
  }

  lemma NoUnusedTickets()
    ensures UnusedTickets(EMPTY) == {}
  {
  }

  // ----- the store --------------------------------------------------------------------------

  /** The tables themselves, changed in place. `commits` is whether the transaction reaches its commit. */
  class Store {
    var contexts: map<Uuid, Context>
    var routes: map<Uuid, RouteKey>
    var index: map<RouteKey, Uuid>
    var tickets: map<Digest, Ticket>
    var cookies: map<Uuid, Uuid>
    var sessions: map<Digest, Session>
    var upstreams: set<Uuid>

    function Snapshot(): Db
      reads this
    {
      Db(contexts, routes, index, tickets, cookies, sessions, upstreams)
    }

    constructor ()
      ensures Snapshot() == EMPTY
    {
      contexts, routes, index, tickets, cookies, sessions, upstreams := map[], map[], map[], map[], map[], map[], {};
    }

    /** Runs inside its caller's transaction: on failure the caller rolls back. */
    method InsertRouteRow(key: RouteKey, spare: Uuid) returns (id: Option<Uuid>)
      modifies this
      ensures match InsertRoute(old(Snapshot()), key, spare)
              case None => id == None && Snapshot() == old(Snapshot())
              case Some((db, r)) => id == Some(r) && Snapshot() == db
    {
      if !ValidOrigin(key.origin) || key.context !in contexts {
        return None;
      }
      if key in index {
        return Some(index[key]);
      }
      if spare in routes {
        return None;
      }
      routes := routes[spare := key];
      index := index[key := spare];
      return Some(spare);
    }

    method OpenContext(input: NewContext, spare: Spare, now: Time, commits: bool) returns (route: Option<Uuid>)
      modifies this
      ensures match CreateContext(old(Snapshot()), input, spare, now)
              case Some((db, r)) => if commits then route == Some(r) && Snapshot() == db
                                    else route == None && Snapshot() == old(Snapshot())
              case None => route == None && Snapshot() == old(Snapshot())
    {
      if spare.context in contexts || (input.egress.Some? && input.egress.value !in upstreams) {
        return None;
      }
      var before, routesBefore, indexBefore := contexts, routes, index;
      contexts := contexts[spare.context := Context(input.owner, input.url, input.egress, input.compatible, false)];
      route := InsertRouteRow(RouteKey(spare.context, input.origin), spare.route);
      if route.None? || spare.ticket in tickets || !commits {
        contexts, routes, index := before, routesBefore, indexBefore;
        return None;
      }
      tickets := tickets[spare.ticket := Ticket(input.owner, spare.context, now + TICKET_LIFETIME, false)];
    }

    method IssueTicket(user: Uuid, context: Uuid, digest: Digest, now: Time) returns (ok: bool)
      modifies this
      ensures match CreateTicket(old(Snapshot()), user, context, digest, now)
              case Some(db) => ok && Snapshot() == db
              case None => !ok && Snapshot() == old(Snapshot())
    {
      if context !in contexts || contexts[context].closed || contexts[context].owner != user || digest in tickets {
        return false;
      }
      tickets := tickets[digest := Ticket(user, context, now + TICKET_LIFETIME, false)];
      return true;
    }

    method Resolve(context: Uuid, user: Uuid, origin: Origin, spare: Uuid, commits: bool) returns (id: Option<Uuid>)
      modifies this
      ensures match ResolveRoute(old(Snapshot()), context, user, origin, spare)
              case Some((db, r)) => if commits then id == Some(r) && Snapshot() == db
                                    else id == None && Snapshot() == old(Snapshot())
              case None => id == None && Snapshot() == old(Snapshot())
    {
      if context !in contexts || contexts[context].closed || contexts[context].owner != user {
        return None;
      }
      var routesBefore, indexBefore := routes, index;
      id := InsertRouteRow(RouteKey(context, origin), spare);
      if !commits {
        routes, index := routesBefore, indexBefore;
        return None;
      }
    }

    method Redeem(digest: Digest, session: Digest, lifetime: Time, now: Time,
                  commits: bool) returns (ticket: Option<Ticket>)
      modifies this
      ensures match ConsumeTicket(old(Snapshot()), digest, session, lifetime, now)
              case Some((db, t)) => if commits then ticket == Some(t) && Snapshot() == db
                                    else ticket == None && Snapshot() == old(Snapshot())
              case None => ticket == None && Snapshot() == old(Snapshot())
    {
      if digest !in tickets || tickets[digest].used || tickets[digest].expires <= now {
        return None;
      }
      var found, before := tickets[digest], tickets;
      tickets := tickets[digest := found.(used := true)];
      if session in sessions || !commits {
        tickets := before;
        return None;
      }
      sessions := sessions[session := Session(found.owner, now + lifetime)];
      return Some(found);
    }

    /** `bootstrap` after the ticket is redeemed: the route to redirect to, handed out with the session token. */
    method FinishBootstrap(context: Uuid, user: Uuid, target: Option<Origin>, spare: Uuid,
                           commits: bool) returns (route: Option<Uuid>)
      modifies this
      ensures match Deliver(old(Snapshot()), context, user, target, spare)
              case Some((db, r)) => if commits then route == Some(r) && Snapshot() == db
                                    else route == None && Snapshot() == old(Snapshot())
              case None => route == None && Snapshot() == old(Snapshot())
    {
      if context !in contexts || contexts[context].closed || contexts[context].owner != user || target.None? {
        return None;
      }
      route := Resolve(context, user, target.value, spare, commits);
    }

    method Close(context: Uuid, user: Uuid) returns (ok: bool)
      modifies this`contexts
      ensures match CloseContext(old(Snapshot()), context, user)
              case Some(db) => ok && Snapshot() == db
              case None => !ok && Snapshot() == old(Snapshot())
    {
      if context !in contexts || contexts[context].owner != user || contexts[context].closed {
        return false;
      }
      contexts := contexts[context := contexts[context].(closed := true)];
      return true;
    }

    method RemoveUpstream(upstream: Uuid, commits: bool) returns (ok: bool)
      modifies this
      ensures match DeleteUpstream(old(Snapshot()), upstream)
              case Some(db) => ok == commits && Snapshot() == if commits then db else old(Snapshot())
              case None => !ok && Snapshot() == old(Snapshot())
    {
      hide Unaffected, ContextsIn, RoutesIn, IndexIn, TicketsIn, CookiesIn;
      var before := Snapshot();
      DeleteContexts(Unaffected(contexts, upstream));
      ok := upstream in upstreams && commits;
      upstreams := upstreams - {upstream};
      if !ok {
        RollBack(before);
      }
    }

    method DeleteContexts(kept: set<Uuid>)
      modifies this
      ensures Snapshot() == Cascade(old(Snapshot()), kept)
    {
      hide ContextsIn, RoutesIn, IndexIn, TicketsIn, CookiesIn;
      contexts, routes, index := ContextsIn(contexts, kept), RoutesIn(routes, kept), IndexIn(index, kept);
      tickets, cookies := TicketsIn(tickets, kept), CookiesIn(cookies, kept);
    }

    method RollBack(before: Db)
      modifies this
      ensures Snapshot() == before
    {
      contexts, routes, index, tickets := before.contexts, before.routes, before.index, before.tickets;
      cookies, sessions, upstreams := before.cookies, before.sessions, before.upstreams;
    }
  }
}

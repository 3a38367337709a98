# Tvpn, modelled and proved

Tvpn is a web VPN: pages of an upstream site are shown under random subdomains of a proxy domain, their references are
rewritten, and every request the page makes is carried to a Go server that checks it against policies and fetches it. This
project models the parts of Tvpn where the behaviour is easy to get wrong and proves, for every input and every run, what
those parts promise. `dafny verify dfyconfig.toml` checks it all.

**The request multiplexer.** A page and the server share one WebSocket and interleave many requests on it. `Frames` is the
6-byte frame header and the mutex-guarded writer; `MuxServer` the server's read loop over its table of live streams;
`MuxResponse` the task that answers one request; `MuxClient` the page's half and its id allocator; `MuxProtocol` puts page
senders, read loop, tasks, writer and both channels into one state machine whose steps interleave freely, with failing
sends, cancellations and disconnection. `Redirects` is the redirect loop of the server and its counterpart in the
TypeScript client.

**Origins and subdomains.** `Text`, `Paths` and `Urls` hold URLs as strings, split, printed and resolved as Go's `net/url`
does; `Guard` is the canonical spelling of an upstream target; `Labels` the 128-bit route label; `Translation` the whole
way around: rewrite a reference, let a browser resolve it, dispatch the request by its host, and rebuild the upstream
target.

**State.** `ProxyStore` keeps contexts, routes, one-time tickets and sessions as tables, each transaction an atomic step
that may roll back, with time, ids and tokens as inputs. `Cookies` is the per-context cookie jar; `Redirects` carries it
from hop to hop, and `DocumentCookies` is the queue of writes that a page's `document.cookie` makes to it.

**Access.** `Cidr` is `net/netip` arithmetic, `Policy` the rule engine, `Egress` the path from a raw URL to a connection
pinned to one checked address, `Headers` the removal of hop-by-hop fields, `Password` the printed password hash.

**Clients.** `Resolver` is the page runtime's bounded scheduler and deduplicating cache, with every promise reaction a step
of its own; `Sdk` the life of contexts and sessions in the Go and TypeScript libraries.

Code that changes state is a method or a class here, proved against a specification function; the lemmas are about those
functions. Calls into libraries and the outside world are parameters: `json.Unmarshal`, `JSON.parse`, IDNA, address and
CIDR texts and the key function are finite maps holding the values that occur, the cipher is ideal, and DNS answers, clocks,
random ids, tokens and salts are inputs.

## Findings

Properties one might expect of the code that it does not have, each with the lemma that shows it:

- A CANCEL frame never stops anything. The runtime sends it only for a body stream, which exists only after the server has
  answered, and by then the stream has left the server's table (`MuxProtocol.CancelIsNoOp`).
- The page's id allocator is right for the first 2^32 - 1 fetches. The next id is sent as 1 but its fetch waits under a key
  no reply can carry (`MuxClient.IdMatchesWireExactly`, `MuxClient.FirstMismatch`).
- A same-origin reference is rewritten to a bare path. An empty path then leads to the page itself
  (`Translation.SameOriginReached`), and one that starts with "//" to the host it names, off the proxy unless that host
  lies below the proxy domain (`Translation.DoubledSlashLeavesTheProxy`); a URL on one of the five reserved
  `/__tvpn/` paths cannot be reached through the proxy; and credentials, which the guard refuses, are dropped by
  `routeURL`, so that the rewritten reference leads where the original may not (`Translation.CredentialsAreDropped`).
  `Translation.RewritePreservesTarget` gives the exact condition for every reference, refused ones included.
- An address with colons on a default port is printed without its brackets and does not read back
  (`Urls.HostWithPortReadsBack`). A reference to one stays refused once it is rewritten, except where the bracketed text is
  a name, a colon and digits: then it is read as that name at that port (`Translation.MisreadExactly`,
  `Translation.RefusedStaysRefused`). This needs a `net/url` that takes any text in brackets, as that of Go 1.25.0 does.
- A ticket still opens a session after its context was closed (`ProxyStore.ClosedContextTicketStillRedeems`), and a
  redemption is of a closed context exactly when the context was closed between issue and redemption
  (`ProxyStore.RedeemedContextClosedExactly`). The session row is then of no use: `bootstrap` looks the context up among
  the open ones before it sets the cookie, so its token is never handed out (`ProxyStore.TokenDeliveredExactly`).
- A finished reply never settles the page's fetch where `new Response` throws: its status is not between 200 and 599, or
  its status text or a header is not one a browser takes (`MuxProtocol.FinishedFetchSettles` is the exact condition). One
  character beyond U+00FF is enough (`MuxProtocol.WideTextNeverSettles`), such as a file name in Chinese in a
  Content-Disposition header (`MuxProtocol.RawFileNameNeverSettles`).
- The default cookie path is cleaned, so it differs from section 5.1.4 of RFC 6265 for directories with empty or dot
  segments (`Cookies.DefaultPathIsRfc`).
- The server follows any 3xx with a Location, the TypeScript client only five statuses and only after upper-casing the
  method; `Redirects.ClientMatchesServer` says exactly when the two send the same requests, and
  `Redirects.LowerCasePostDiffers` shows a lower-case `post` that becomes a GET in one and not in the other.
- A URL-prefix rule matches only if its authority is spelled as the guard spells it: canonical host, and the port only where
  it is not the default one, without leading zeros (`Egress.PrefixMatchesExactly`). A rule with a default, empty or
  zero-padded port matches nothing (`Egress.PortSpelledOtherwiseNeverMatches`).
- A CIDR rule in the IPv4-mapped block, such as `::ffff:10.0.0.0/104`, is accepted and matches no target at all, since
  addresses are unmapped before they are compared (`Policy.MatchesNothingExactly`); a blacklist of such rules excludes
  nothing (`Policy.MappedBlacklistExcludesNothing`).
- Outside compatibility mode two assignments to `document.cookie` are sent at once, so that the jar may keep the older
  one (`DocumentCookies.OlderMayWin`); the chain of compatibility mode rules that out
  (`DocumentCookies.LatestAssignmentHolds`).
- A context whose creation reply cannot be read is never closed by either client library (`Sdk.EveryContextHasOneOwner`).
- `Session.Close` of the Go library may report success for a close that later fails, leaving the session open
  (`Sdk.EarlySuccessMayBeTakenBack`); a closed session is closed for good exactly when its close has succeeded
  (`Sdk.ClosedIsFinalExactly`).
- Overlapping `close` calls of a TypeScript session all reach the server (`Sdk.TypeScriptMayCloseTwice`); it has at most
  one close in flight or done exactly when no call overlaps another (`Sdk.TypeScriptClosesOnceExactly`).

## Model

| member | source | states |
|---|---|---|
| `Frames.DecodeInvertsEncode` | internal/proxy/mux.go:47-56 | Every frame a sender writes is read back as itself: version, kind, big-endian id and payload. |
| `Frames.EncodeInvertsDecode` | internal/proxy/mux.go:72-82 | A message the reader accepts is the encoding of what it is read as, so no two messages are read alike. |
| `Frames.WireLayout` | internal/proxy/mux.go:20-56 | The bytes of a frame: version 1, the kind, the id from its highest byte to its lowest, the payload; and the eight kinds by number. |
| `Frames.BigEndianRoundTrip` | internal/proxy/mux.go:52 | The four id bytes determine the id, for every uint32. |
| `Frames.MuxWriter.Send` | internal/proxy/mux.go:47-56 | The connection holds exactly the encodings of the frames sent, in order; a failed send leaves it as it was. |
| `MuxServer.Accept` | internal/proxy/mux.go:72-82 | What the loop reads are exactly the binary, well-formed messages before it closes the connection. |
| `MuxServer.AcceptStops` | internal/proxy/mux.go:74-82 | The loop stops at the first message that is not binary or not a frame, and at no other. |
| `MuxServer.HandleFrame` | internal/proxy/mux.go:84-121 | The switch on the frame kind changes the table at the frame's own id only, as the specification of one stream says. |
| `MuxServer.ServeMux` | internal/proxy/mux.go:58-123 | The read loop computes the table and the effects of the accepted history, and closes only on a malformed message. |
| `MuxServer.NonInterference` | internal/proxy/mux.go:70-122 | For any frames, the state kept for an id and the effects on it are those of running the frames of that id alone. |
| `MuxServer.LiveStream` | internal/proxy/mux.go:86-112 | A live stream's buffer is the concatenation of the CHUNK payloads since the START that opened it. |
| `MuxServer.OpensExactly` | internal/proxy/mux.go:86-101 | A stream is opened by a START with usable metadata while its id is free, and by nothing else. |
| `MuxServer.LiveExactly` | internal/proxy/mux.go:84-121 | Once opened a stream is live, with the chunks since then as its body, if and only if no END or CANCEL came for it and the chunks are at most 32 MiB. |
| `MuxServer.NextEffect` | internal/proxy/mux.go:84-121 | What any further frame of such a stream does: another START is refused, a chunk is appended or ends it, END dispatches it with its whole body, CANCEL ends it, other kinds do nothing. |
| `MuxServer.DispatchedBody` | internal/proxy/mux.go:108-117 | A dispatched body is exactly the payloads between its accepted START and its END, never more than 32 MiB, and the stream was neither cancelled nor overflowed in between. |
| `MuxServer.BodiesBounded` | internal/proxy/mux.go:102-112 | In every reachable table every buffer is at most 32 MiB. |
| `MuxServer.Accounting` | internal/proxy/mux.go:84-121 | Accepted STARTs = live + dispatched + cancelled + overflowed after every history. |
| `MuxServer.StreamAccounting` | internal/proxy/mux.go:84-121 | The same ledger for one id: it is open exactly when its openings exceed its endings, and then by one. |
| `MuxResponse.ChunksAreTheBytes` | internal/proxy/mux.go:163-180 | The chunks sent are, end to end, the bytes read from the upstream body. |
| `MuxResponse.ChunksFitTheBuffer` | internal/proxy/mux.go:163-180 | Every chunk is non-empty and at most 32 KiB. |
| `MuxResponse.CopyLoop` | internal/proxy/mux.go:163-180 | The copy loop sends one frame for each non-empty read up to the first read error, or stops at the first failed send. |
| `MuxResponse.StreamBody` | internal/proxy/mux.go:163-180 | The body part of the response is Chunk* and then End or Error as the body ended, or a prefix if a send fails. |
| `MuxResponse.ExecuteMux` | internal/proxy/mux.go:125-180 | Each task writes the frames of its reply, or as many as the connection still carries; they are as `ReplyReports` says. |
| `MuxResponse.ReplyReports` | internal/proxy/mux.go:125-180 | One error that names the reason for CONNECT and TRACE, for a target that is not allowed and for a failed round trip, and nothing else; otherwise one RESPONSE with the metadata, non-empty chunks that are the bytes read up to the first read error, and then END or an error as the body ended. |
| `MuxResponse.MuxError` | internal/proxy/mux.go:237-239 | One error frame for the stream, if the connection carries it. |
| `MuxClient.PageMux.Register` | internal/proxy/runtime.js:147-165 | A fetch takes the allocator's next id and is registered fresh under it. |
| `MuxClient.PageMux.HandleFrame` | internal/proxy/runtime.js:136-163 | A message changes at most the pending fetch with its id, as the frame's kind says: a status, status text or header `new Response` refuses leaves the promise open, and a second response takes the controller away. |
| `MuxClient.PageMux.Disconnect` | internal/proxy/runtime.js:127-130 | When the socket closes nothing stays pending: a fetch without a response is rejected, a body being read fails after its bytes, and all else stays as the page saw it. |
| `MuxClient.CounterClosedForm` | internal/proxy/runtime.js:152 | The counter before the n-th allocation: one value is skipped after every 2^32 - 1 ids. |
| `MuxClient.IdMatchesWireExactly` | internal/proxy/runtime.js:152 | The n-th fetch's table key equals the id on the wire if and only if n is 1 or n - 1 is no multiple of 2^32 - 1. |
| `MuxClient.FirstIds` | internal/proxy/runtime.js:152 | The first 2^32 - 1 fetches get the ids 1, 2, 3, and so on, so no two of them share one. |
| `MuxClient.FirstMismatch` | internal/proxy/runtime.js:136-152 | The next fetch is sent as stream 1, and no message whatever reaches it. |
| `MuxClient.FoldGrows` | internal/proxy/runtime.js:136-163 | Further frames only add bytes to what a fetch has received. |
| `MuxClient.StreamingMeansResponse` | internal/proxy/runtime.js:155-159 | A body stream, the only thing a page can cancel, exists only after a RESPONSE frame. |
| `MuxProtocol.Reachable` | internal/proxy/mux.go:58-180 | Every interleaving of senders, read loop, tasks, sends, receptions, cancellations and disconnection keeps the protocol invariant. |
| `MuxProtocol.OwnReplyOnly` | internal/proxy/mux.go:72-180 | At every moment of every run, what the page got for a stream is the beginning of that stream's own reply and of nobody else's. |
| `MuxProtocol.NeverStuck` | internal/proxy/mux.go:58-180 | Until a run is quiet some actor can move, so no interleaving deadlocks. |
| `MuxProtocol.StepLessens` | internal/proxy/mux.go:58-180 | Every step that uploads, reads, sends or receives leaves less to do, in that order of weight. |
| `MuxProtocol.EveryRunComesToRest` | internal/proxy/mux.go:58-180 | Every endless schedule that takes such a step while there is one, in whatever order and with whatever failing sends, reaches a quiet state. |
| `MuxProtocol.WholeReplyDelivered` | internal/proxy/mux.go:125-180 | In a quiet run every stream without cancellation or failed send shows its whole reply. |
| `MuxProtocol.CancelIsNoOp` | internal/proxy/mux.go:113-121 | In no run does a CANCEL frame find its stream in the table. |
| `MuxProtocol.ReplyToUpload` | internal/proxy/mux.go:84-117 | The upstream is asked with exactly the body the page sent, or the page gets one error if the body exceeds 32 MiB. |
| `MuxProtocol.ReplyToBadMetadata` | internal/proxy/mux.go:86-101 | A START with unusable metadata is answered by one error and nothing after it is read. |
| `MuxProtocol.PageSeesReply` | internal/proxy/runtime.js:136-163 | The page shows exactly the bytes of a reply, closed or failed once; none under a null-body status, and nothing at all where the metadata is unreadable or `new Response` refuses it. |
| `MuxProtocol.PageReadsBody` | internal/proxy/runtime.js:155-163 | For a response the browser takes: under 204, 205 and 304 no byte, under every other status from 200 to 599 exactly the bytes of the chunks, closed after a finished reply and failed after an interrupted one. |
| `MuxProtocol.FinishedFetchSettles` | internal/proxy/runtime.js:155-163 | A finished reply settles the fetch if and only if its metadata can be read and `new Response` takes it: its status, as 16 bits, is between 200 and 599, its status text has no control character and none beyond U+00FF, and every header has a token as its name and a value of bytes without NUL, CR or LF inside. |
| `MuxProtocol.OrdinaryReplySettles` | internal/proxy/runtime.js:155-163 | With a status between 200 and 599, printable ASCII texts and plain header names a finished reply always settles the fetch. |
| `MuxProtocol.WideTextNeverSettles` | internal/proxy/runtime.js:155-163 | A reply with a status text, header name or header value beyond U+00FF never settles the fetch, whatever its status. |
| `MuxProtocol.RawFileNameNeverSettles` | internal/proxy/mux.go:145-158 | So a download under status 200 whose Content-Disposition holds a raw Chinese file name leaves the fetch pending for good. |
| `MuxProtocol.PageSeesError` | internal/proxy/runtime.js:136-163 | An error before any response rejects the fetch. |
| `MuxProtocol.EndToEnd` | internal/proxy/mux.go:47-180 | End to end, in every interleaving: the upstream is asked with the bytes the page uploaded, and the page shows exactly the answer to them: its bytes under every status that has a body, then one end or error. |
| `MuxProtocol.UpstreamToPage` | internal/proxy/mux.go:125-180 | With `executeMux` in between: no byte reaches the page unless the target was allowed, the method is neither CONNECT nor TRACE and the round trip succeeded, and then it reads the upstream body up to its first read error. |
| `Redirects.MuxRoundTrip` | internal/proxy/mux.go:182-236 | The server's loop sends the requests the specification of a run says and ends as it says; each request carries exactly the cookies that match its target in the jar of that moment, every earlier response's cookies saved, and at the end the jar holds those of all responses. |
| `Redirects.HopCarriesExactly` | internal/proxy/mux.go:197-218 | A request of a run carries the cookie of a key exactly as the last save that concerned it left it, be it an earlier response of the run or another request, or as the jar held it before. |
| `Redirects.SecureOverWss` | internal/proxy/mux.go:240-250 | A WebSocket target has the cookies of the HTTP one: a Secure cookie needs https or wss, and nothing else depends on the scheme. |
| `Redirects.CookieTravels` | internal/proxy/mux.go:197-218 | A cookie set by one response goes with exactly the later requests of the run it matches, with the value it was set to, until a later save concerns its key. |
| `Redirects.Route` | sdk/typescript/src/index.ts:55-87 | The TypeScript loop sends the requests its specification says. |
| `Redirects.RunExactly` | internal/proxy/mux.go:213-235 | Both loops with the statuses written out: which responses are followed, that 303 and a POST under 301 or 302 go on as GET without a body and everything else, 307 and 308 included, unchanged, and how each run ends. |
| `Redirects.HopAt` | internal/proxy/mux.go:228-233 | The k-th request, without the loop: the original method and body unless an earlier response dropped them, for a target taken from the redirect before it. |
| `Redirects.AuthorisedHopsOnly` | internal/proxy/mux.go:185-233 | At most eleven requests; each later one goes only to a target authorised for the redirect before it. |
| `Redirects.OnceDroppedAlwaysGet` | internal/proxy/mux.go:228-231 | Once the body is dropped every later request is a GET without a body. |
| `Redirects.ClientMatchesServer` | sdk/typescript/src/index.ts:63-86 | Both loops send the same requests if and only if the method is upper case and every response the server followed had status 301, 302, 303, 307 or 308. |
| `Redirects.LowerCasePostDiffers` | sdk/typescript/src/index.ts:63-77 | A lower-case `post` shows why the method must be upper case: the two loops then differ. |
| `Text.AtOrBelowIsLabelwise` | internal/policy/policy.go:180-183 | Comparing with a dot in front is comparing whole labels: a host is at or below a domain exactly when the domain's labels are its last ones. |
| `Text.AtoiInvertsItoa` | internal/proxy/security.go:61-71 | Decimal numbers read back. |
| `Text.TrimsExactly` | internal/proxy/rewrite.go:139 | Trimming takes away the white space at both ends of a text and nothing else. |
| `Paths.RemoveDotsIsDotFree` | internal/proxy/rewrite.go:142-146 | Resolution leaves no "." or ".." segment (section 5.2.4 of RFC 3986). |
| `Paths.RemoveDotsOfDotFree` | internal/proxy/rewrite.go:142-146 | A path without dot segments is left alone. |
| `Paths.ResolvedPathIsStable` | internal/proxy/rewrite.go:142-155 | A resolved path, resolved again against any page, is itself. |
| `Paths.RelativeReferences` | internal/proxy/rewrite.go:142-146 | Relative references of section 5.4 of RFC 3986: beside the page, with "./" too, and one level up with "../". |
| `Urls.ParsePrinted` | internal/proxy/http.go:659-661 | A printed URL, with or without a fragment, parses back to its parts. |
| `Urls.HostWithPortReadsBack` | internal/proxy/http.go:722-727 | The authority printed for a host and port reads back if and only if the host has no colon or the port is not the default one. |
| `Urls.HostnameLower` | internal/proxy/security.go:52 | Taking the host name and port of an authority commutes with lower-casing it. |
| `Guard.NormalizePrinted` | internal/proxy/security.go:44-73 | Reading a printed URL gives the guard exactly its scheme, host, port, path and query. |
| `Guard.NormalizedParts` | internal/proxy/security.go:52-73 | A normalised authority is the one printed for the canonical host and port, and reads back as them. |
| `Guard.NormalizedIsOutside` | internal/proxy/security.go:44-69 | No spelling of a control-plane host, URL with credentials or unusable port gets through. |
| `Guard.NormalizeIdempotent` | internal/proxy/security.go:44-73 | Normalising a normalised target, under any path and query, changes nothing else. |
| `Guard.TypedIsHttp` | internal/proxy/security.go:44-52 | A target typed without scheme, or with two slashes in front, is read as an http one. |
| `Labels.RoundTrip` | internal/proxy/store.go:185-191 | A label parses back to its id, and a name that parses prints back up to the case of its digits. |
| `Labels.PrintInjective` | internal/proxy/store.go:185 | Different routes get different subdomains. |
| `ProxyStore.Reachable` | internal/database/migrations/004_proxy.sql:2-31 | In every reachable state route keys and ids are in bijection, foreign keys hold, and tickets belong to the owners of their contexts. |
| `ProxyStore.RouteIdsDistinct` | internal/proxy/store.go:86-98 | No route id serves two origins or two contexts. |
| `ProxyStore.ResolveThenLookUp` | internal/proxy/store.go:100-128 | The label of a resolved route leads back to that origin, context, owner and egress, and resolving again gives the same id. |
| `ProxyStore.ContextKeeps` | internal/proxy/store.go:166-175 | Over any run a surviving context keeps its owner, egress and route ids, and stays closed once closed. |
| `ProxyStore.ClosedYieldsNothing` | internal/proxy/store.go:69-128 | A closed context never again yields a route, by origin or by label, or a ticket. |
| `ProxyStore.ClosedContextTicketStillRedeems` | internal/proxy/store.go:130-153 | In every reachable state an unused ticket in time opens a session, whether or not its context was closed since it was issued. |
| `ProxyStore.RedeemedContextClosedExactly` | internal/proxy/store.go:130-172 | A redemption is of a closed context if and only if the context was closed between the issue of the ticket and the redemption. |
| `ProxyStore.DeliveredExactly` | internal/proxy/http.go:353-377 | Whatever happens between redemption and look-up, the look-up succeeds exactly when the context was not closed since the issue of the ticket. |
| `ProxyStore.TokenDeliveredExactly` | internal/proxy/http.go:353-377 | The session row of a redemption always exists, but its token is handed out if and only if the context was not closed in between. |
| `ProxyStore.DeletedUpstreamIsForgotten` | internal/proxy/upstream.go:147-164 | Deleting an upstream leaves no context that uses it and no route, ticket or cookie row of such a context, and touches no other. |
| `ProxyStore.OneSessionPerTicket` | internal/proxy/store.go:130-153 | In every run a ticket opens at most as many sessions as it was issued, the unused ticket itself counted. |
| `ProxyStore.TicketWasIssued` | internal/proxy/store.go:69-80 | Every ticket in the table was issued by some operation of the run, with that user, context and expiry. |
| `ProxyStore.RedeemedInTime` | internal/proxy/store.go:130-153 | Every session was opened within two minutes of its ticket's issue, for the same user and context. |
| `ProxyStore.SessionsNeverExceedTickets` | internal/proxy/store.go:130-153 | Sessions are the redemptions of the run and never outnumber the tickets issued. |
| `ProxyStore.SessionWasOpened` | internal/proxy/store.go:130-153 | In every reachable table each session was opened by one redemption of an unused ticket in time, for its owner and for as long as was asked, and the ticket was used up by it. |
| `ProxyStore.ContextWasCreated` | internal/proxy/store.go:42-67 | In every reachable table each context was created with its owner, egress and mode, and its current URL is that of its last update, or the one it was created with. |
| `ProxyStore.ClosedByItsOwner` | internal/proxy/store.go:166-172 | In every reachable table a closed context was closed by its owner. |
| `ProxyStore.Store.InsertRouteRow` | internal/proxy/store.go:86-98 | The insert finds or creates the row, or fails leaving the tables to be rolled back. |
| `ProxyStore.Store.OpenContext` | internal/proxy/store.go:42-67 | Context and first route appear together or not at all. |
| `ProxyStore.Store.IssueTicket` | internal/proxy/store.go:69-80 | A ticket is stored only for the owner of an open context. |
| `ProxyStore.Store.Resolve` | internal/proxy/store.go:100-118 | The route of an origin in an open context of that user, or an unchanged store. |
| `ProxyStore.Store.Redeem` | internal/proxy/store.go:130-153 | Marking the ticket used and storing the session happen together or not at all. |
| `ProxyStore.Store.FinishBootstrap` | internal/proxy/http.go:360-376 | After a redemption: the route of the current URL of an open context, or nothing. |
| `ProxyStore.Store.Close` | internal/proxy/store.go:166-172 | Closes an open context of that user and nothing else. |
| `ProxyStore.Store.RemoveUpstream` | internal/proxy/upstream.go:147-164 | Contexts, routes, tickets and the upstream go in one transaction, or none does. |
| `Translation.DispatchRoute` | internal/proxy/http.go:196-219 | A request to a route's host is dispatched to that route. |
| `Translation.ServeForwards` | internal/proxy/http.go:379-383 | A request for a path of a route is what `forward` asks the guard about, unless the proxy answers it itself. |
| `Translation.AnswersFivePaths` | internal/proxy/http.go:246-267 | On a route the proxy answers five paths itself; every other path is forwarded to the route's origin. |
| `Translation.ForwardTyped` | internal/proxy/http.go:379-383 | The guard reads the authority `forward` prints, for any host free of separators, colons and brackets included. |
| `Translation.ServeRoute` | internal/proxy/http.go:379-383 | A request for a path of a route reaches the guard-normalised target with that path on the route's origin. |
| `Translation.RouteURLReads` | internal/proxy/http.go:659-661 | A route URL parses back to its parts. |
| `Translation.RouteIsOnProxy` | internal/proxy/http.go:656-661 | The browser asks the proxy for every route URL. |
| `Translation.TargetIsNormalize` | internal/proxy/security.go:44-73 | The target of a resolved reference is what the guard makes of its printed form. |
| `Translation.SameOriginReached` | internal/proxy/rewrite.go:149-154 | For every same-origin reference the bare path reaches its target exactly when it survives and is not reserved; a reserved one leads nowhere, an empty one to the page's own target, and one with two leading slashes where the host it names leads. |
| `Translation.RouteReached` | internal/proxy/rewrite.go:155-164 | For every web reference, refused ones included, the route URL reaches what the guard makes of the origin filed, or nothing on a reserved path; only an impossible port gets no route. |
| `Translation.ForwardedIsTarget` | internal/proxy/http.go:379-383 | What the guard makes of the forwarded URL is the target the reference meant, refusal included, except for a misread address. |
| `Translation.MisreadExactly` | internal/proxy/http.go:722-727 | An address is misread exactly when it is a name, a colon and digits and the guard accepts that name at that port. |
| `Translation.RewritePreservesTarget` | internal/proxy/rewrite.go:138-165 | For every text: empty ones, fragments and the five schemes stay as they are, the first two leading to the page itself; what does not parse or is not for the web becomes `about:blank` and leads nowhere; and every other reference, followed in a browser on the proxied page, reaches exactly what the original meant, the guard's refusal included, if and only if a condition on path, credentials, address and named host holds. |
| `Translation.UntouchedExactly` | internal/proxy/rewrite.go:140-142 | What is left as it is, said through the text before the first colon: nothing, a fragment, or one of five schemes in any case. |
| `Translation.WebIsRewritten` | internal/proxy/rewrite.go:140-145 | No reference for the web is among them. |
| `Translation.RewrittenForm` | internal/proxy/rewrite.go:146-164 | A reference to the page's own scheme and host, in any case, becomes path, query and fragment; any other becomes the URL of a route for its scheme, host and port in the page's context, or `about:blank` if there can be none. |
| `Translation.RefusedStaysRefused` | internal/proxy/rewrite.go:155-164 | A reference the guard refuses for its host leads nowhere once rewritten, unless its address is misread. |
| `Translation.CredentialsAreDropped` | internal/proxy/http.go:659-661 | A reference with credentials, which the guard refuses, leads to the target it names without them once it is rewritten for another origin. |
| `Translation.OpenedTargetIsServed` | internal/proxy/http.go:85-128 | Opening a context for a target and following its first URL fetches that very target, unless its path is reserved. |
| `Translation.ServedPageIsSetting` | internal/proxy/http.go:379-383 | Every page a browser gets under a route URL, misread addresses included, satisfies what the rewriting theorem assumes. |
| `Translation.PageOrigin` | internal/proxy/http.go:722-727 | A proxied page stands for the origin its route's printed authority reads back as, which is the route's own but for a misread address. |
| `Translation.BranchesAgree` | internal/proxy/rewrite.go:149-164 | The same-origin shortcut and the route branch lead to the same target. |
| `Translation.DoubledSlashLeavesTheProxy` | internal/proxy/rewrite.go:149-154 | A bare path that starts with "//" takes the browser to the host it names, and off the proxy unless that host lies below the proxy domain. |
| `Translation.RewriteKeepsSetting` | internal/proxy/rewrite.go:138-165 | Rewriting any reference keeps everything the theorem assumes, so it applies to all references of a page in turn. |
| `Translation.PlainTargetIsNormal` | internal/proxy/security.go:44-74 | The guard accepts, unchanged, every web URL on a canonical host outside Tvpn whose port is spelled out only if it is not the default. |
| `Translation.MapsBack` | internal/proxy/http.go:659-733 | `mapProxyURL`, within its context and across contexts, and `normalizeClientURL` invert `routeURL`. |
| `Translation.ResolveIsIdempotent` | internal/proxy/http.go:323-351 | The resolve endpoint returns its own outputs unchanged, which is why the runtime may skip it for proxy URLs. |
| `Translation.SpellingsShareRoute` | internal/proxy/security.go:52-73 | Two spellings the guard normalises alike get the same route id. |
| `Cookies.PathMatchIsRfc` | internal/proxy/cookies.go:101-106 | `pathMatches` is the path match of section 5.1.4 of RFC 6265, both directions. |
| `Cookies.DomainMatchIsRfc` | internal/proxy/cookies.go:98-100 | `domainMatches` is the suffix rule of section 5.1.3 of RFC 6265, its IP clause apart. |
| `Cookies.DefaultPathIsRfc` | internal/proxy/cookies.go:107-116 | The default path agrees with the RFC exactly when the directory has no empty or dot segment or is the root. |
| `Cookies.BatchesCompose` | internal/proxy/cookies.go:15-56 | Saving a concatenated batch is saving its parts in order. |
| `Cookies.LastTouchIsLast` | internal/proxy/cookies.go:15-56 | The save a key's entry comes from is the last that concerned it. |
| `Cookies.JarHoldsLastAccepted` | internal/proxy/cookies.go:15-56 | After any run of saves each (context, name, domain, path) holds the last accepted cookie, nothing if that one removed it, and what it held before if none concerned it. |
| `Cookies.SentKeysAnswer` | internal/proxy/cookies.go:66-97 | A load returns exactly the unexpired, matching cookies of the context, each once. |
| `Cookies.SetThenSent` | internal/proxy/cookies.go:15-97 | From Set-Cookie to Cookie in the terms of section 5 of RFC 6265: the exact condition on expiry, Domain, public suffix, host, path, Secure and HttpOnly under which a saved cookie goes with a later request, and its value. |
| `Cookies.VisibleIsSentMinusHttpOnly` | internal/proxy/cookies.go:58-70 | Scripts see what the request carries, less the HttpOnly cookies. |
| `DocumentCookies.WritesLandInOrder` | internal/proxy/runtime.js:34-39 | In compatibility mode, in every run and whatever fails, one write at a time is under way, each lands at most once, and they land in the order assigned. |
| `DocumentCookies.ChainNeverStalls` | internal/proxy/runtime.js:38 | A failed write does not hold up the ones behind it: until all have settled, one can be sent or can settle. |
| `DocumentCookies.LandingSaves` | internal/proxy/http.go:294-321 | A landed write saves its cookie for the page's host and path, unless it is no cookie or HttpOnly. |
| `DocumentCookies.LatestAssignmentHolds` | internal/proxy/http.go:294-321 | Then, of all assignments to a key that have landed, the latest decides what the jar holds there, unless another request has saved there since. |
| `DocumentCookies.OlderMayWin` | internal/proxy/runtime.js:36-37 | Without the chain, for any two assignments to one key there is a run that ends with the older in the jar. |
| `Cookies.CookieTable.Delete` | internal/proxy/cookies.go:34-40 | Removes the one row of a key and keeps the rest. |
| `Cookies.CookieTable.Upsert` | internal/proxy/cookies.go:49-53 | Inserts or replaces the row of a key and keeps the rest. |
| `Cookies.CookieTable.SaveCookies` | internal/proxy/cookies.go:15-56 | The loop over a response's cookies leaves the rows holding the jar after the whole batch. |
| `Cookies.CookieTable.SaveEach` | internal/proxy/cookies.go:15-56 | Saves of different requests, one after the other, leave the rows holding the jar after all of them. |
| `Cookies.CookieTable.Load` | internal/proxy/cookies.go:66-97 | Collects the matching cookies in row order, each value opened under its own key. |
| `Cidr.ContainsIsInterval` | internal/policy/policy.go:187-196 | A prefix accepts exactly an interval of addresses of its family. |
| `Cidr.MaskingKeepsMeaning` | internal/policy/policy.go:145-150 | Clearing the host bits of a prefix never changes the addresses it accepts. |
| `Cidr.AcceptsNothingExactly` | internal/policy/policy.go:187-196 | A network accepts no unmapped address if and only if it is IPv6, its mask has 96 bits or more, and it lies in the IPv4-mapped block. |
| `Cidr.IsNonPublic` | internal/policy/policy.go:211-219 | The early-return scan decides membership in the table or failure of the last clause. |
| `Cidr.NonPublicIsUnionOfRanges` | internal/policy/policy.go:201-219 | An address is non-public exactly when, unmapped, it lies in one of the twenty ranges; the last clause adds nothing. |
| `Policy.Match` | internal/policy/policy.go:177-199 | Decides whether a rule matches, over all addresses. |
| `Policy.MatchesAny` | internal/policy/policy.go:169-176 | Decides whether some rule of a list matches. |
| `Policy.Evaluate` | internal/policy/policy.go:101-132 | The loop returns the verdict of the specification, reason and policy included, and it is as `VerdictDecides` says. |
| `Policy.VerdictDecides` | internal/policy/policy.go:101-132 | Allowed if and only if the list is not empty, has no deny_all and no unknown mode, every whitelist matches, no blacklist and no deny_intranet policy does, and under deny_intranet no address is non-public; otherwise the first policy that denies is named with the reason of its mode. |
| `Policy.AllowsIffEachAllows` | internal/policy/policy.go:101-132 | A list allows if and only if it is non-empty and each policy allows on its own. |
| `Policy.DenialNamesFirstDenier` | internal/policy/policy.go:101-132 | A denial is that of the first policy that denies on its own. |
| `Policy.OnlyTheSetMatters` | internal/policy/policy.go:101-132 | Permuting or repeating policies never changes whether a target is allowed. |
| `Policy.MorePoliciesNeverAllowMore` | internal/policy/policy.go:101-132 | A policy added anywhere to a non-empty list never turns a denial into an allow. |
| `Policy.MappedAddressesJudgedAlike` | internal/policy/policy.go:187-219 | IPv4-mapped and plain spellings, order and repetition of addresses do not change the verdict. |
| `Policy.StoredNetworkMatchesAlike` | internal/policy/policy.go:145-150 | A CIDR rule matches the same targets as typed and as stored. |
| `Policy.MatchesNothingExactly` | internal/policy/policy.go:187-196 | So a CIDR rule matches no target with any addresses if and only if its network lies in that block. |
| `Policy.MappedBlacklistExcludesNothing` | internal/policy/policy.go:101-118 | A blacklist of such rules alone allows every target. |
| `Egress.HardDenied` | internal/proxy/security.go:104-112 | The scan decides membership, unmapped, among the four addresses that are always denied. |
| `Egress.CheckAddresses` | internal/proxy/security.go:84-89 | The loop unmaps every address in place and fails exactly when one of them is always denied. |
| `Egress.Resolve` | internal/proxy/security.go:44-91 | The guard's answer: the normalised URL, its unmapped addresses and its port, or a refusal. |
| `Egress.ResolvedAddresses` | internal/proxy/security.go:75-90 | A resolved target has at least one address, all unmapped and none always denied. |
| `Egress.Authorize` | internal/proxy/http.go:636-646 | A target is handed out only if it resolves and the policies of that moment allow it. |
| `Egress.AllowedIsPinnable` | internal/policy/policy.go:101-132 | Every address of an allowed target passed every check: public under deny_intranet, in no network of a blacklist. |
| `Egress.EveryDialIsSound` | internal/proxy/http.go:539-595 | An HTTP request leaves, if it does, for the first address of a host outside Tvpn, which passed every check, over its context's own egress and only under a grant. |
| `Egress.DialsExactly` | internal/proxy/http.go:539-595 | A request goes out if and only if the guard accepts its URL, its host stands for some address and for none of the four always denied, the policies permit it and the user has a grant; and then to the first address, at the URL's port, over the context's egress. |
| `Egress.EveryHopIsSound` | internal/proxy/mux.go:185-233 | So does every hop of every redirect run, under the DNS, policies and grants of its own moment. |
| `Egress.PrefixMatchesExactly` | internal/policy/policy.go:184-186 | A URL-prefix rule matches a guard-normalised target if and only if scheme, canonical host, port number and path prefix agree and its authority, lower-cased, is the one printed for that host and port. |
| `Egress.RuleMatchesExactly` | internal/policy/policy.go:177-199 | Each kind of rule against a guard-normalised target: the very host, its last labels, an interval of addresses, place and spelling of a URL prefix. |
| `Egress.PortSpelledOtherwiseNeverMatches` | internal/policy/policy.go:184-186 | So a rule with a default, empty or zero-padded port matches no target at all. |
| `Egress.ExplicitDefaultPortNeverMatches` | internal/policy/policy.go:184-186 | A URL-prefix rule that spells out a default port matches no guard-normalised target. |
| `Headers.Header.StripHopHeaders` | internal/proxy/http.go:745-754 | Exactly the hop-by-hop fields and those Connection names are gone; every other field is as it was. |
| `Headers.StrippedStaysStripped` | internal/proxy/http.go:745-754 | Stripping twice changes nothing. |
| `Headers.NineFieldsGo` | internal/proxy/http.go:745-754 | The nine hop-by-hop fields go; of the others only those Connection names. |
| `Resolver.Runtime.DrainResolutions` | internal/proxy/runtime.js:79-85 | Starts queued tasks in order until 24 are in flight or none is left. |
| `Resolver.Runtime.ResolveURL` | internal/proxy/runtime.js:86-100 | Answers from the cache, joins a pending request, or queues one, and keeps the invariant. |
| `Resolver.Runtime.OnSettled` | internal/proxy/runtime.js:83 | A settled request keeps its slot until its own reaction runs. |
| `Resolver.Runtime.OnReply` | internal/proxy/runtime.js:92-96 | Stores the reply, evicting the oldest key of a full cache. |
| `Resolver.Runtime.OnFinally` | internal/proxy/runtime.js:97 | Forgets the pending promise. |
| `Resolver.Runtime.OnSlotFree` | internal/proxy/runtime.js:83 | Frees a slot and drains the queue. |
| `Resolver.RunKeeps` | internal/proxy/runtime.js:63-100 | Every run keeps the invariant, and tasks only move on. |
| `Resolver.SchedulerHolds` | internal/proxy/runtime.js:79-85 | At most 24 in flight; the queue waits only while all 24 are; asked = queued + in flight + finished. |
| `Resolver.TasksStartInOrder` | internal/proxy/runtime.js:73-85 | Tasks start in the order they were asked for. |
| `Resolver.TasksSettleOnce` | internal/proxy/runtime.js:73-85 | No task starts twice, settles twice or changes its outcome. |
| `Resolver.OneRequestPerTarget` | internal/proxy/runtime.js:91-98 | Never two outstanding requests for one target. |
| `Resolver.CacheHoldsLatestReplies` | internal/proxy/runtime.js:92-96 | The cache is exactly the last 4096 keys stored, each with a reply the server gave for that key. |
| `Resolver.EveryReplyIsStored` | internal/proxy/runtime.js:92-96 | No reply is lost: every successful resolution is stored under its target before its promise is forgotten. |
| `Resolver.CachedAnswersAreUncachedAnswers` | internal/proxy/runtime.js:86-100 | If the reply depends on the target alone, every caller is told what an uncached request is told. |
| `Resolver.QuietMeansAnswered` | internal/proxy/runtime.js:73-100 | When nothing is left to react, nothing is queued or pending and every caller has its answer. |
| `Resolver.WorkRunsOut` | internal/proxy/runtime.js:73-100 | Without new requests only a bounded number of steps is left, so every run comes to rest. |
| `Password.Base64RoundTrip` | internal/auth/password.go:32-33 | Unpadded base64 (sections 3.2 and 4 of RFC 4648) reads back for every byte string. |
| `Text.SplitInvertsJoin` | internal/auth/password.go:37 | Splitting at a separator undoes joining parts that do not contain it. |
| `Password.VerifyPassword` | internal/auth/password.go:36-77 | The loops decide exactly whether the text parses within the limits and the key function gives the stored key. |
| `Password.ParseInvertsPrint` | internal/auth/password.go:32-67 | A printed hash parses back to its cost, salt and key if they are within the limits, and is rejected if not. |
| `Password.NarrowingLosesNothing` | internal/auth/password.go:61-75 | Every accepted parameter fits the integer type it is narrowed to. |
| `Password.HashVerifies` | internal/auth/password.go:23-77 | A printed hash accepts a password exactly when its key equals that of the hashed one, so always the hashed one. |
| `Password.VerifiesExactly` | internal/auth/password.go:36-77 | A password passes against a printed hash if and only if the hash is within the limits and the key function gives its key at its cost, salt and length. |
| `Sdk.CleanupBody.Close` | sdk/go/tvpn/client.go:306-319 | Closing a body any number of times attempts one close. |
| `Sdk.Do` | sdk/go/tvpn/client.go:71-110 | On every exit path the new context has one close attempt or is held by the one returned body. |
| `Sdk.Fetch` | sdk/typescript/src/index.ts:33-40 | The TypeScript one-shot request closes its context once whether the session's request returns or throws. |
| `Sdk.EveryContextHasOneOwner` | sdk/go/tvpn/client.go:71-110 | Over every run a context has exactly one close attempt or one unclosed holder if and only if its creation reply could be read. |
| `Sdk.ClosingEveryBodyClosesEveryContext` | sdk/go/tvpn/client.go:306-319 | Once all returned bodies are closed, each such context was closed exactly once and nothing else ever was. |
| `Sdk.InitialRouteUsedOnce` | sdk/go/tvpn/client.go:123-146 | However calls interleave, the initial route is used at most once, in both libraries. |
| `Sdk.GoClosesOnce` | sdk/go/tvpn/client.go:148-163 | At most one close request is in flight and at most one succeeds, and the flag says exactly that. |
| `Sdk.GoCloseIsFinal` | sdk/go/tvpn/client.go:123-163 | After a successful close no request is accepted and nothing is closed again, whatever follows. |
| `Sdk.ClosedIsFinalExactly` | sdk/go/tvpn/client.go:148-163 | A closed Go session stays closed under every continuation if and only if its close has succeeded. |
| `Sdk.GoAlwaysClosesOnce` | sdk/go/tvpn/client.go:148-163 | At every moment of every run a Go session has at most one close in flight or done. |
| `Sdk.EarlySuccessMayBeTakenBack` | sdk/go/tvpn/client.go:148-163 | In every state with a close in flight, a second `Close` reports success at once, and a failure then reopens the session to requests. |
| `Sdk.TypeScriptClosesOnceExactly` | sdk/typescript/src/index.ts:137-142 | Over every run a TypeScript session has at most one close in flight or done, at every moment, if and only if no close of the open session overlaps another. |
| `Sdk.TypeScriptMayCloseTwice` | sdk/typescript/src/index.ts:137-142 | Whenever `close` is called on an open session with a close in flight, a second request goes out, and both may succeed. |
| `Sdk.Session.BeginDo` | sdk/go/tvpn/client.go:123-137 | The critical section of `Do`: refused when closed, the initial route for its URL once. |
| `Sdk.Session.BeginClose` | sdk/go/tvpn/client.go:148-155 | The first critical section of `Close`. |
| `Sdk.Session.EndClose` | sdk/go/tvpn/client.go:156-163 | The second one: a failure reopens the session. |

## Left out

- SQL, the database driver, HTTP serving, TLS, DNS and sockets: tables are maps, transactions atomic steps, and what the outside answers is an input. Errors of the database itself are not modelled.
- AES-GCM, Argon2, SHA-256 and random generation: ideal functions and inputs.
- JSON, IDNA, the public suffix list and the texts of addresses and prefixes: finite maps of the values that occur. IDNA is assumed to accept no host with a colon, and its output to be lower case, without trailing dot, colon or separators, and stable.
- Percent-encoding: paths and queries are kept as written, so a reserved path is recognised only when it is written plainly. Case folding and white space are those of ASCII.
- A bare "?" at the end of a URL, which `querySuffix` drops, is not told apart from no query.
- `Translation.RewritePreservesTarget`: assumes a browser that resolves references as RFC 3986 says, reads two or more leading slashes as the start of an authority, and never sends an empty path; a base domain in lower case without trailing dot; references without inner white space, which the original percent-encodes in a path and prints as it is in a query, or stray brackets in the host; and that a fresh route id is not in use. The browser takes a host as it is written (without IDNA or percent-decoding), and asks the proxy for the hosts below the proxy domain at the proxy's port and for no others.
- `Translation.ResolveIsIdempotent`: the policies are taken to allow the target both times.
- `MuxProtocol.EndToEnd`: assumes distinct ids, which `MuxClient.FirstIds` gives for the first 2^32 - 1 fetches; the upstream's answer is a function of stream, metadata and body.
- `Redirects.MuxRoundTrip`: requests carry method, body, target and cookies; the other headers of a hop are not part of it, and neither is the bearer token of the TypeScript loop. What other requests save while one is under way comes before its own response is saved, each batch as a whole.
- `MuxClient.IdMatchesWireExactly`: JavaScript numbers are exact only below 2^53, far beyond the first mismatch.
- `Cookies.CookieTable.SaveCookies`: one clock reading serves a whole batch, and expiry is kept from Expires alone, as the table stores it.
- `Policy.Match`: host comparison folds ASCII letters only, where the original folds Unicode.
- `Egress.EveryHopIsSound`: claims nothing for whitelist networks, which match when any address of the target lies in them.
- `Resolver.CachedAnswersAreUncachedAnswers`: targets are already absolute; `absoluteTarget`, the short-circuit for proxy URLs and the mode without compatibility are not modelled.
- `Sdk.GoClosesOnce`: each critical section is one step; the one-shot flag of a body is modelled for calls that do not overlap.
- `DocumentCookies.WritesLandInOrder`: a write whose request has settled lands no more; what `http.ParseSetCookie` makes of a text is an input, and the page's own view of its cookies (`updateVisibleCookie`) is not part of it.
- The host and URL branches of rule validation and the CORS translation: single-branch members that would add little.
- Users, program tokens, request authentication, scopes, administration, the last-admin check, deletion of expired sessions and the foreign keys of users.
- The WebSocket read limit: a larger message ends the read loop like any failed read.
- HTML and CSS parsing and rewriting around `rewriteURL`, `srcset`, WebSocket pumping, XHR, EventSource and history hooks, LDAP, configuration, the web interface, the command line and the Python library.

/** The whole request multiplexer: page senders, the server's read loop, one `executeMux` task per dispatched request
    and the mutex-guarded writer, joined by one FIFO channel each way and interleaved arbitrarily. A channel is kept as
    everything ever put on it plus how much has been taken off. */
module MuxProtocol {
  import opened Wrappers
  import opened Frames
  import opened MuxServer
  import opened MuxResponse
  import Headers
  import Page = MuxClient

  // ----- what the page asks and what the upstream answers ------------------------------------

  datatype Request = Request(metadata: seq<byte>, chunks: seq<seq<byte>>)
  datatype Query = Query(id: uint32, meta: Meta, body: seq<byte>)

  /** `requests` are the page's fetches by stream id, each id used once. `replies` is what `executeMux` would answer to
      each request it could be handed; a request it does not list is denied. */
  datatype Config = Config(parse: MetaParser, inits: Page.InitParser,
                           requests: map<uint32, Request>, replies: map<Query, Reply>)

  function Respond(cfg: Config, q: Query): Reply {
    if q in cfg.replies then cfg.replies[q] else Denied(TARGET_DENIED)
  }

  /** The frames one effect of the read loop eventually causes. */
  function Answer(cfg: Config, e: Effect): seq<Frame> {
    match e
    case Refused(id, message) => [ErrorFrame(id, message)]
    case Overflowed(id) => [ErrorFrame(id, BODY_TOO_LARGE)]
    case Dispatched(id, meta, body) => Word(id, Respond(cfg, Query(id, meta, body)))
    case _ => []
  }

  function Answers(cfg: Config, log: seq<Effect>): seq<Frame> {
    if log == [] then [] else Answers(cfg, log[..|log| - 1]) + Answer(cfg, log[|log| - 1])
  }

  function UploadFrames(id: uint32, chunks: seq<seq<byte>>): seq<Frame> {
    seq(|chunks|, i requires 0 <= i < |chunks| => Frame(CHUNK, id, chunks[i]))
  }

  /** The frames `muxFetch` sends for one request. */
  function Script(id: uint32, r: Request): (frames: seq<Frame>)
    ensures |frames| == |r.chunks| + 2
  {
    [Frame(START, id, r.metadata)] + UploadFrames(id, r.chunks) + [Frame(END, id, [])]
  }

  /** Everything that may ever be sent for one request: the script, then at most one cancellation. */
  function Plan(id: uint32, r: Request): seq<Frame> {
    Script(id, r) + [Frame(CANCEL, id, [])]
  }

  // ----- the state machine ------------------------------------------------------------------

  datatype State = State(
    sent: map<uint32, nat>,            // how much of each opened request's script has been sent
    aborted: set<uint32>,              // streams whose body the page has cancelled
    up: seq<Frame>, read: nat,         // page to server
    streams: Streams,                  // the server's table of live streams
    outbox: seq<Frame>,                // the error the read loop is about to send, if any
    tasks: map<uint32, seq<Frame>>,    // what each running executeMux still has to send
    lost: set<uint32>,                 // streams for which a send has failed
    down: seq<Frame>, taken: nat,      // server to page
    views: map<uint32, Page.View>,     // what the page shows for each opened request
    closed: bool)

  const INITIAL := State(map[], {}, [], 0, map[], [], map[], {}, [], 0, map[], false)

  datatype Step =
    | Open(id: uint32)                 // register the fetch and send START
    | Upload(id: uint32)               // send the next CHUNK, or END
    | Read                             // the read loop takes one frame
    | Flush(ok: bool)                  // the read loop sends its error frame, or fails to
    | Emit(id: uint32, ok: bool)       // a task sends its next frame, or fails and gives up
    | Receive                          // the page handles one frame
    | Abort(id: uint32)                // the page cancels a response body
    | Disconnect                       // the socket closes

  predicate CanOpen(cfg: Config, s: State, id: uint32) {
    !s.closed && id in cfg.requests && id !in s.sent
  }

  function DoOpen(cfg: Config, s: State, id: uint32): State
    requires CanOpen(cfg, s, id)
  {
    s.(sent := s.sent[id := 1], up := s.up + [Script(id, cfg.requests[id])[0]], views := s.views[id := Page.FRESH])
  }

  predicate CanUpload(cfg: Config, s: State, id: uint32) {
    !s.closed && id in cfg.requests && id in s.sent && s.sent[id] < |Script(id, cfg.requests[id])|
  }

  function DoUpload(cfg: Config, s: State, id: uint32): State
    requires CanUpload(cfg, s, id)
  {
    s.(sent := s.sent[id := s.sent[id] + 1], up := s.up + [Script(id, cfg.requests[id])[s.sent[id]]])
  }

  predicate CanRead(s: State) {
    !s.closed && s.outbox == [] && s.read < |s.up|
  }

  /** The effect of the frame the read loop is about to take. */
  function NextEffect(cfg: Config, s: State): Effect
    requires CanRead(s)
  {
    MuxServer.React(cfg.parse, Slot(s.streams, s.up[s.read].id), s.up[s.read]).1
  }

  function DoRead(cfg: Config, s: State): State
    requires CanRead(s)
  {
    var f, e := s.up[s.read], NextEffect(cfg, s);
    var slot := MuxServer.React(cfg.parse, Slot(s.streams, f.id), f).0;
    s.(read := s.read + 1, streams := Put(s.streams, f.id, slot),
       tasks := if e.Dispatched? then s.tasks[f.id := Answer(cfg, e)] else s.tasks,
       outbox := if e.Dispatched? then [] else Answer(cfg, e))
  }

  predicate CanFlush(s: State) {
    !s.closed && s.outbox != []
  }

  function DoFlush(s: State, ok: bool): State
    requires CanFlush(s)
  {
    if ok then s.(outbox := [], down := s.down + s.outbox)
    else s.(outbox := [], lost := s.lost + {s.outbox[0].id})
  }

  predicate CanEmit(s: State, id: uint32) {
    !s.closed && id in s.tasks && s.tasks[id] != []
  }

  function DoEmit(s: State, id: uint32, ok: bool): State
    requires CanEmit(s, id)
  {
    if ok then s.(tasks := s.tasks[id := s.tasks[id][1..]], down := s.down + [s.tasks[id][0]])
    else s.(tasks := s.tasks[id := []], lost := s.lost + {id})
  }

  predicate CanReceive(s: State) {
    !s.closed && s.taken < |s.down|
  }

  function DoReceive(cfg: Config, s: State): State
    requires CanReceive(s)
  {
    s.(taken := s.taken + 1, views := Heard(cfg, s.views, s.down[s.taken]))
  }

  function Heard(cfg: Config, views: map<uint32, Page.View>, f: Frame): map<uint32, Page.View> {
    if f.id in views then views[f.id := Page.React(cfg.inits, views[f.id], f)] else views
  }

  predicate CanAbort(s: State, id: uint32) {
    !s.closed && id in s.views && s.views[id].registered && s.views[id].phase == Page.Streaming && s.views[id].control == Page.Own
  }

  function DoAbort(s: State, id: uint32): State
    requires CanAbort(s, id)
  {
    s.(aborted := s.aborted + {id}, up := s.up + [Frame(CANCEL, id, [])],
       views := s.views[id := s.views[id].(phase := Page.Aborted)])
  }

  function DoDisconnect(s: State): State {
    s.(closed := true,
       views := map id | id in s.views :: if s.views[id].registered then Page.Fail(s.views[id]) else s.views[id])
  }

  predicate Enabled(cfg: Config, s: State, step: Step) {
    match step
    case Open(id) => CanOpen(cfg, s, id)
    case Upload(id) => CanUpload(cfg, s, id)
    case Read => CanRead(s)
    case Flush(_) => CanFlush(s)
    case Emit(id, _) => CanEmit(s, id)
    case Receive => CanReceive(s)
    case Abort(id) => CanAbort(s, id)
    case Disconnect => !s.closed
  }

  function Apply(cfg: Config, s: State, step: Step): State
    requires Enabled(cfg, s, step)
  {
    match step
    case Open(id) => DoOpen(cfg, s, id)
    case Upload(id) => DoUpload(cfg, s, id)
    case Read => DoRead(cfg, s)
    case Flush(ok) => DoFlush(s, ok)
    case Emit(id, ok) => DoEmit(s, id, ok)
    case Receive => DoReceive(cfg, s)
    case Abort(id) => DoAbort(s, id)
    case Disconnect => DoDisconnect(s)
  }

  /** A run: any sequence of steps, those not enabled when their turn comes being skipped. */
  function Exec(cfg: Config, steps: seq<Step>): State {
    if steps == [] then INITIAL
    else
      var s := Exec(cfg, steps[..|steps| - 1]);
      if Enabled(cfg, s, steps[|steps| - 1]) then Apply(cfg, s, steps[|steps| - 1]) else s
  }

  // ----- the invariant, one stream at a time ------------------------------------------------

  predicate Sends(cfg: Config, sent: map<uint32, nat>, aborted: set<uint32>, up: seq<Frame>, id: uint32) {
    && (id in sent ==> id in cfg.requests && 1 <= sent[id] <= |Script(id, cfg.requests[id])|)
    && (id in aborted ==> id in sent && sent[id] == |Script(id, cfg.requests[id])|)
    && Only(up, id) == if id !in sent then []
                       else if id in aborted then Plan(id, cfg.requests[id])
                       else Script(id, cfg.requests[id])[..sent[id]]
  }

  /** One stream's ledger: what has been sent to the page, with the read loop's unsent error (`boxed`) and the rest of
      its task, is what is due, or after a failed send the beginning of it. */
  predicate Settled(due: seq<Frame>, delivered: seq<Frame>, boxed: seq<Frame>, task: seq<Frame>, failed: bool) {
    && delivered + boxed + task <= due
    && (if failed then due != [] else delivered + boxed + task == due)
    && (boxed == [] || task == [])
  }

  function TaskOf(tasks: map<uint32, seq<Frame>>, id: uint32): seq<Frame> {
    if id in tasks then tasks[id] else []
  }

  /** `mine` are the frames of `id` the read loop has taken. */
  predicate Owes(cfg: Config, mine: seq<Frame>, outbox: seq<Frame>, tasks: map<uint32, seq<Frame>>,
                 lost: set<uint32>, down: seq<Frame>, id: uint32) {
    && Settled(Answers(cfg, Log(cfg.parse, mine)), Only(down, id), Only(outbox, id), TaskOf(tasks, id), id in lost)
    && forall f :: f in TaskOf(tasks, id) ==> f.id == id
  }

  predicate Shows(cfg: Config, sent: map<uint32, nat>, aborted: set<uint32>, closed: bool,
                  views: map<uint32, Page.View>, heard: seq<Frame>, id: uint32) {
    var expected := Page.Fold(cfg.inits, heard);
    && (id in sent <==> id in views)
    && (id in views ==> views[id].bytes <= expected.bytes)
    && (id in views && id in aborted ==> views[id].phase == Page.Aborted)
    && (id in views && id !in aborted && !closed ==> views[id] == expected)
  }

  predicate Global(cfg: Config, s: State) {
    && s.read <= |s.up| && s.taken <= |s.down| && |s.outbox| <= 1
    && s.streams == Table(cfg.parse, s.up[..s.read])
  }

  predicate Mine(cfg: Config, s: State, id: uint32)
    requires s.read <= |s.up| && s.taken <= |s.down|
  {
    && Sends(cfg, s.sent, s.aborted, s.up, id)
    && Owes(cfg, Only(s.up[..s.read], id), s.outbox, s.tasks, s.lost, s.down, id)
    && Shows(cfg, s.sent, s.aborted, s.closed, s.views, Only(s.down[..s.taken], id), id)
  }

  ghost predicate Inv(cfg: Config, s: State) {
    Global(cfg, s) && forall id :: Mine(cfg, s, id)
  }

  // ----- projections ------------------------------------------------------------------------

  lemma {:induction false} OnlyTake(log: seq<Frame>, n: nat, id: uint32)
    requires n <= |log|
    ensures Only(log[..n], id) <= Only(log, id)
  {
    if n == |log| {
      assert log[..n] == log;
    } else {
      OnlyTake(log[..|log| - 1], n, id);
      assert log[..|log| - 1][..n] == log[..n];
    }
  }

  lemma NothingYet(cfg: Config, id: uint32)
    ensures Only([], id) == []
    ensures Slot(Table(cfg.parse, []), id) == None && Answers(cfg, Log(cfg.parse, [])) == []
    ensures Page.Fold(cfg.inits, []) == Page.FRESH
  {
  }

  lemma OnlyAdvance(log: seq<Frame>, n: nat, id: uint32)
    requires n < |log|
    ensures Only(log[..n + 1], id) == Only(log[..n], id) + if log[n].id == id then [log[n]] else []
    ensures log[n].id == id ==> Only(log[..n], id) + [log[n]] <= Only(log, id)
  {
    OnlySnoc(log[..n], log[n], id);
    assert log[..n] + [log[n]] == log[..n + 1];
    OnlyTake(log, n + 1, id);
  }

  lemma TakeSnoc(log: seq<Frame>, n: nat, f: Frame)
    requires n <= |log|
    ensures (log + [f])[..n] == log[..n]
  {
  }

  // ----- what a planned request can cause ---------------------------------------------------

  lemma PlanShape(id: uint32, r: Request, k: nat)
    requires k < |Plan(id, r)|
    ensures Plan(id, r)[k].id == id
    ensures Plan(id, r)[k].kind == START <==> k == 0
    ensures Plan(id, r)[k].kind == END <==> k == |Script(id, r)| - 1
    ensures Plan(id, r)[k].kind == CANCEL <==> k == |Script(id, r)|
  {
  }

  ghost predicate Planned(cfg: Config, mine: seq<Frame>, id: uint32) {
    mine != [] ==> id in cfg.requests && mine <= Plan(id, cfg.requests[id])
  }

  lemma AnswersSnoc(cfg: Config, log: seq<Effect>, e: Effect)
    ensures Answers(cfg, log + [e]) == Answers(cfg, log) + Answer(cfg, e)
  {
    assert (log + [e])[..|log|] == log;
  }

  lemma AnswerShape(cfg: Config, e: Effect)
    ensures forall f :: f in Answer(cfg, e) ==> f.id == e.id
    ensures Answer(cfg, e) == [] <==> e.Accepted? || e.Appended? || e.Cancelled? || e.Ignored?
    ensures !e.Dispatched? ==> |Answer(cfg, e)| <= 1 && forall f :: f in Answer(cfg, e) ==> f.kind == RESPONSE_ERROR
  {
  }

  /** After the first frame of a plan no frame can open the stream again, and a live stream has caused no answer. */
  lemma ReactPlanned(cfg: Config, slot: Option<Stream>, f: Frame)
    requires f.kind != START
    ensures var (slot', e) := MuxServer.React(cfg.parse, slot, f);
            && (slot.None? ==> slot'.None? && Answer(cfg, e) == [])
            && (slot'.Some? ==> slot.Some? && Answer(cfg, e) == [])
            && (f.kind == END ==> slot'.None?)
            && (e.Dispatched? <==> f.kind == END && slot.Some?)
  {
  }

  lemma ReactStart(cfg: Config, f: Frame)
    requires f.kind == START
    ensures var (slot', e) := MuxServer.React(cfg.parse, None, f);
            (slot'.Some? ==> Answer(cfg, e) == []) && !e.Dispatched?
  {
  }

  ghost predicate Silent(cfg: Config, mine: seq<Frame>, id: uint32) {
    Slot(Table(cfg.parse, mine), id).Some? ==> Answers(cfg, Log(cfg.parse, mine)) == []
  }

  lemma {:induction false} LiveMeansSilent(cfg: Config, mine: seq<Frame>, id: uint32)
    requires Planned(cfg, mine, id)
    ensures Silent(cfg, mine, id)
  {
    if mine != [] {
      var front, last := mine[..|mine| - 1], mine[|mine| - 1];
      assert mine == front + [last];
      LiveMeansSilent(cfg, front, id);
      LiveMeansSilentSnoc(cfg, front, last, id);
    }
  }

  lemma LiveMeansSilentSnoc(cfg: Config, front: seq<Frame>, last: Frame, id: uint32)
    requires Planned(cfg, front + [last], id) && Silent(cfg, front, id)
    ensures Silent(cfg, front + [last], id)
  {
    assert last == (front + [last])[|front|] == Plan(id, cfg.requests[id])[|front|];
    PlanShape(id, cfg.requests[id], |front|);
    SnocAnswers(cfg, front, last);
    if front == [] {
      ReactStart(cfg, last);
    } else {
      ReactPlanned(cfg, Slot(Table(cfg.parse, front), id), last);
    }
  }

  lemma SnocAnswers(cfg: Config, mine: seq<Frame>, f: Frame)
    ensures var (slot, e) := MuxServer.React(cfg.parse, Slot(Table(cfg.parse, mine), f.id), f);
            && Slot(Table(cfg.parse, mine + [f]), f.id) == slot
            && Answers(cfg, Log(cfg.parse, mine + [f])) == Answers(cfg, Log(cfg.parse, mine)) + Answer(cfg, e)
  {
    hide MuxServer.React, Answer;
    Snoc(cfg.parse, mine, f);
    AnswersSnoc(cfg, Log(cfg.parse, mine), MuxServer.React(cfg.parse, Slot(Table(cfg.parse, mine), f.id), f).1);
  }

  /** A planned request is answered at most once. */
  lemma AnsweredOnce(cfg: Config, mine: seq<Frame>, f: Frame, id: uint32)
    requires Planned(cfg, mine + [f], id) && f.id == id
    ensures var e := MuxServer.React(cfg.parse, Slot(Table(cfg.parse, mine), id), f).1;
            Answer(cfg, e) != [] ==> Answers(cfg, Log(cfg.parse, mine)) == []
  {
    var plan := Plan(id, cfg.requests[id]);
    assert (mine + [f])[|mine|] == plan[|mine|];
    PlanShape(id, cfg.requests[id], |mine|);
    if mine != [] {
      assert mine <= mine + [f] <= plan;
      LiveMeansSilent(cfg, mine, id);
      ReactPlanned(cfg, Slot(Table(cfg.parse, mine), id), f);
    }
  }

  // ----- every step keeps the invariant -----------------------------------------------------

  lemma ReadIsPlanned(cfg: Config, s: State, n: nat, id: uint32)
    requires n <= |s.up| && Sends(cfg, s.sent, s.aborted, s.up, id)
    ensures Planned(cfg, Only(s.up[..n], id), id)
  {
    OnlyTake(s.up, n, id);
    if id in s.sent {
      var script := Script(id, cfg.requests[id]);
      assert script[..s.sent[id]] <= script <= Plan(id, cfg.requests[id]);
    }
  }

  /** Nothing is ever sent to the page about a request it has not opened. */
  lemma UnopenedIsUnheard(cfg: Config, s: State, id: uint32)
    requires Global(cfg, s) && Mine(cfg, s, id) && id !in s.sent
    ensures Only(s.down[..s.taken], id) == [] && id !in s.aborted
  {
    OnlyTake(s.up, s.read, id);
    OnlyTake(s.down, s.taken, id);
    assert Answers(cfg, Log(cfg.parse, [])) == [];
  }

  lemma SendsOne(cfg: Config, s: State, j: uint32, n: nat, id: uint32)
    requires Sends(cfg, s.sent, s.aborted, s.up, id)
    requires j in cfg.requests && n < |Script(j, cfg.requests[j])|
    requires if j in s.sent then s.sent[j] == n else n == 0
    ensures Sends(cfg, s.sent[j := n + 1], s.aborted, s.up + [Script(j, cfg.requests[j])[n]], id)
  {
    hide Script, Only;
    var script := Script(j, cfg.requests[j]);
    PlanShape(j, cfg.requests[j], n);
    assert script[n] == Plan(j, cfg.requests[j])[n];
    OnlySnoc(s.up, script[n], id);
    if j == id {
      assert script[..n + 1] == script[..n] + [script[n]];
    }
  }

  lemma OpenKeeps(cfg: Config, s: State, j: uint32, id: uint32)
    requires Global(cfg, s) && Mine(cfg, s, id) && CanOpen(cfg, s, j)
    ensures Global(cfg, DoOpen(cfg, s, j)) && Mine(cfg, DoOpen(cfg, s, j), id)
  {
    hide Sends, Owes, Only, Table, Page.Fold;
    SendsOne(cfg, s, j, 0, id);
    TakeSnoc(s.up, s.read, Script(j, cfg.requests[j])[0]);
    if j == id {
      UnopenedIsUnheard(cfg, s, id);
      NothingYet(cfg, id);
    }
  }

  lemma UploadKeeps(cfg: Config, s: State, j: uint32, id: uint32)
    requires Global(cfg, s) && Mine(cfg, s, id) && CanUpload(cfg, s, j)
    ensures Global(cfg, DoUpload(cfg, s, j)) && Mine(cfg, DoUpload(cfg, s, j), id)
  {
    hide Sends, Owes, Only, Table, Page.Fold;
    SendsOne(cfg, s, j, s.sent[j], id);
    TakeSnoc(s.up, s.read, Script(j, cfg.requests[j])[s.sent[j]]);
  }

  lemma SettledFlush(due: seq<Frame>, delivered: seq<Frame>, boxed: seq<Frame>, task: seq<Frame>, failed: bool)
    requires Settled(due, delivered, boxed, task, failed)
    ensures Settled(due, delivered + boxed, [], task, failed)
    ensures boxed != [] ==> Settled(due, delivered, [], task, true)
  {
    assert delivered + boxed + [] == delivered + boxed;
    assert boxed != [] ==> delivered + [] + task == delivered;
  }

  lemma OwesFlush(cfg: Config, mine: seq<Frame>, s: State, ok: bool, id: uint32)
    requires Owes(cfg, mine, s.outbox, s.tasks, s.lost, s.down, id)
    requires |s.outbox| == 1
    ensures ok ==> Owes(cfg, mine, [], s.tasks, s.lost, s.down + s.outbox, id)
    ensures !ok ==> Owes(cfg, mine, [], s.tasks, s.lost + {s.outbox[0].id}, s.down, id)
  {
    hide Only, Answers, Log, Settled;
    var f := s.outbox[0];
    assert s.outbox == [f] && [] + [f] == [f];
    OnlySnoc([], f, id);
    OnlySnoc(s.down, f, id);
    NothingYet(cfg, id);
    SettledFlush(Answers(cfg, Log(cfg.parse, mine)), Only(s.down, id), Only(s.outbox, id), TaskOf(s.tasks, id), id in s.lost);
  }

  lemma FlushKeeps(cfg: Config, s: State, ok: bool, id: uint32)
    requires Global(cfg, s) && Mine(cfg, s, id) && CanFlush(s)
    ensures Global(cfg, DoFlush(s, ok)) && Mine(cfg, DoFlush(s, ok), id)
  {
    hide Sends, Owes, Shows, Only, Table;
    OwesFlush(cfg, Only(s.up[..s.read], id), s, ok, id);
    TakeSnoc(s.down, s.taken, s.outbox[0]);
    assert s.outbox == [s.outbox[0]];
  }

  lemma SettledEmit(due: seq<Frame>, delivered: seq<Frame>, boxed: seq<Frame>, task: seq<Frame>, failed: bool)
    requires Settled(due, delivered, boxed, task, failed) && task != []
    ensures Settled(due, delivered + [task[0]], boxed, task[1..], failed)
    ensures Settled(due, delivered, boxed, [], true)
  {
    assert task == [task[0]] + task[1..];
    assert delivered + [task[0]] + boxed + task[1..] == delivered + boxed + task;
  }

  lemma OwesEmit(cfg: Config, mine: seq<Frame>, s: State, j: uint32, ok: bool, id: uint32)
    requires Owes(cfg, mine, s.outbox, s.tasks, s.lost, s.down, id)
    requires j in s.tasks && s.tasks[j] != [] && s.tasks[j][0].id == j
    ensures ok ==> Owes(cfg, mine, s.outbox, s.tasks[j := s.tasks[j][1..]], s.lost, s.down + [s.tasks[j][0]], id)
    ensures !ok ==> Owes(cfg, mine, s.outbox, s.tasks[j := []], s.lost + {j}, s.down, id)
  {
    hide Only, Answers, Log, Settled;
    OnlySnoc(s.down, s.tasks[j][0], id);
    if j == id {
      SettledEmit(Answers(cfg, Log(cfg.parse, mine)), Only(s.down, id), Only(s.outbox, id), s.tasks[j], id in s.lost);
    } else {
      assert Only(s.down, id) + [] == Only(s.down, id);
    }
  }

  lemma TaskHead(cfg: Config, s: State, j: uint32)
    requires s.read <= |s.up| && s.taken <= |s.down| && Mine(cfg, s, j) && CanEmit(s, j)
    ensures s.tasks[j][0].id == j
  {
    hide Sends, Shows, Settled, Only, Answers, Log;
    assert s.tasks[j][0] in TaskOf(s.tasks, j);
  }

  lemma EmitKeeps(cfg: Config, s: State, j: uint32, ok: bool, id: uint32)
    requires Global(cfg, s) && Mine(cfg, s, id) && Mine(cfg, s, j) && CanEmit(s, j)
    ensures Global(cfg, DoEmit(s, j, ok)) && Mine(cfg, DoEmit(s, j, ok), id)
  {
    hide Sends, Owes, Shows, Only, Table;
    TaskHead(cfg, s, j);
    OwesEmit(cfg, Only(s.up[..s.read], id), s, j, ok, id);
    TakeSnoc(s.down, s.taken, s.tasks[j][0]);
  }

  lemma ShowsOne(cfg: Config, s: State, heard: seq<Frame>, f: Frame, id: uint32)
    requires !s.closed && Shows(cfg, s.sent, s.aborted, s.closed, s.views, heard, id)
    ensures Shows(cfg, s.sent, s.aborted, s.closed, Heard(cfg, s.views, f), heard + if f.id == id then [f] else [], id)
  {
    hide Page.Fold;
    Page.FoldSnoc(cfg.inits, heard, f);
    assert heard + [] == heard;
  }

  lemma ReceiveKeeps(cfg: Config, s: State, id: uint32)
    requires Global(cfg, s) && Mine(cfg, s, id) && CanReceive(s)
    ensures Global(cfg, DoReceive(cfg, s)) && Mine(cfg, DoReceive(cfg, s), id)
  {
    hide Sends, Owes, Shows, Only, Table;
    var f := s.down[s.taken];
    OnlyAdvance(s.down, s.taken, id);
    ShowsOne(cfg, s, Only(s.down[..s.taken], id), f, id);
  }

  lemma DisconnectKeeps(cfg: Config, s: State, id: uint32)
    requires Global(cfg, s) && Mine(cfg, s, id) && !s.closed
    ensures Global(cfg, DoDisconnect(s)) && Mine(cfg, DoDisconnect(s), id)
  {
    hide Sends, Owes, Only, Table, Page.Fold;
  }

  /** The page can cancel a body only after its whole request has been read, answered and partly heard. */
  lemma AbortComesLast(cfg: Config, s: State, id: uint32)
    requires Global(cfg, s) && Mine(cfg, s, id) && CanAbort(s, id)
    ensures id in s.sent && id in cfg.requests && id !in s.aborted
    ensures s.sent[id] == |Script(id, cfg.requests[id])|
  {
    hide Script, Plan, Only, Table, Log, Answers, Page.Fold;
    var heard, mine := Only(s.down[..s.taken], id), Only(s.up[..s.read], id);
    var k := Page.StreamingMeansResponse(cfg.inits, heard);
    OnlyTake(s.down, s.taken, id);
    OnlyTake(s.up, s.read, id);
    var answers := Answers(cfg, Log(cfg.parse, mine));
    assert heard[k] == answers[k];
    ReadIsPlanned(cfg, s, s.read, id);
    var n := ResponseMeansEnd(cfg, mine, id, k);
    PlanShape(id, cfg.requests[id], n);
  }

  lemma {:induction false} ResponseMeansEnd(cfg: Config, mine: seq<Frame>, id: uint32, k: nat) returns (n: nat)
    requires var answers := Answers(cfg, Log(cfg.parse, mine)); k < |answers| && answers[k].kind == RESPONSE
    ensures n < |mine| && mine[n].kind == END
  {
    hide Answer, Answers, Log, Table, MuxServer.React;
    NothingYet(cfg, id);
    assert mine != [];
    var front, last := mine[..|mine| - 1], mine[|mine| - 1];
    assert mine == front + [last];
    SnocAnswers(cfg, front, last);
    if k < |Answers(cfg, Log(cfg.parse, front))| {
      n := ResponseMeansEnd(cfg, front, id, k);
    } else {
      n := |front|;
      RespondingFrame(cfg, Slot(Table(cfg.parse, front), last.id), last, k - |Answers(cfg, Log(cfg.parse, front))|);
    }
  }

  lemma RespondingFrame(cfg: Config, slot: Option<Stream>, f: Frame, k: nat)
    requires var answer := Answer(cfg, MuxServer.React(cfg.parse, slot, f).1); k < |answer| && answer[k].kind == RESPONSE
    ensures f.kind == END
  {
    AnswerShape(cfg, MuxServer.React(cfg.parse, slot, f).1);
    assert Answer(cfg, MuxServer.React(cfg.parse, slot, f).1)[k].kind == RESPONSE;
    hide Answer;
  }

  lemma SendsAbort(cfg: Config, s: State, j: uint32, id: uint32)
    requires Sends(cfg, s.sent, s.aborted, s.up, id)
    requires j in cfg.requests && j in s.sent && j !in s.aborted && s.sent[j] == |Script(j, cfg.requests[j])|
    ensures Sends(cfg, s.sent, s.aborted + {j}, s.up + [Frame(CANCEL, j, [])], id)
  {
    OnlySnoc(s.up, Frame(CANCEL, j, []), id);
    hide Only, Script;
    if j == id {
      assert Script(id, cfg.requests[id])[..s.sent[id]] == Script(id, cfg.requests[id]);
    }
  }

  lemma AbortKeeps(cfg: Config, s: State, j: uint32, id: uint32)
    requires Global(cfg, s) && Mine(cfg, s, id) && Mine(cfg, s, j) && CanAbort(s, j)
    ensures Global(cfg, DoAbort(s, j)) && Mine(cfg, DoAbort(s, j), id)
  {
    hide Owes, Sends, Only, Table, Page.Fold;
    AbortComesLast(cfg, s, j);
    SendsAbort(cfg, s, j, id);
    TakeSnoc(s.up, s.read, Frame(CANCEL, j, []));
  }

  lemma SettledRead(due: seq<Frame>, delivered: seq<Frame>, task: seq<Frame>, failed: bool, answer: seq<Frame>)
    requires Settled(due, delivered, [], task, failed)
    requires answer != [] ==> due == []
    ensures Settled(due + answer, delivered, answer, task, failed)
    ensures answer != [] ==> Settled(due + answer, delivered, [], answer, failed)
  {
    if answer == [] {
      assert due + answer == due;
    } else {
      assert delivered + [] + task == [];
      assert [] + answer == answer;
    }
  }

  lemma OnlyShort(frames: seq<Frame>, owner: uint32, id: uint32)
    requires |frames| <= 1 && forall f :: f in frames ==> f.id == owner
    ensures Only(frames, id) == if owner == id then frames else []
  {
    if frames != [] {
      assert frames[0].id == owner && frames[..|frames| - 1] == [];
      assert Only([], id) == [] && [] + [frames[0]] == frames;
    }
  }

  lemma OwesRead(cfg: Config, mine: seq<Frame>, s: State, f: Frame, id: uint32)
    requires Owes(cfg, mine, [], s.tasks, s.lost, s.down, id) && f.id == id
    requires Planned(cfg, mine + [f], id)
    ensures var e := MuxServer.React(cfg.parse, Slot(Table(cfg.parse, mine), id), f).1;
            Owes(cfg, mine + [f],
                 if e.Dispatched? then [] else Answer(cfg, e),
                 if e.Dispatched? then s.tasks[id := Answer(cfg, e)] else s.tasks, s.lost, s.down, id)
  {
    hide MuxServer.React, Answer, Answers, Log, Only, Table, Plan, Settled;
    var e := MuxServer.React(cfg.parse, Slot(Table(cfg.parse, mine), id), f).1;
    AnswerShape(cfg, e);
    AnsweredOnce(cfg, mine, f, id);
    SnocAnswers(cfg, mine, f);
    OnlyShort([], id, id);
    if !e.Dispatched? {
      OnlyShort(Answer(cfg, e), id, id);
    }
    SettledRead(Answers(cfg, Log(cfg.parse, mine)), Only(s.down, id), TaskOf(s.tasks, id), id in s.lost, Answer(cfg, e));
  }

  lemma OwesOther(cfg: Config, mine: seq<Frame>, s: State, e: Effect, id: uint32)
    requires Owes(cfg, mine, [], s.tasks, s.lost, s.down, id) && e.id != id
    ensures Owes(cfg, mine,
                 if e.Dispatched? then [] else Answer(cfg, e),
                 if e.Dispatched? then s.tasks[e.id := Answer(cfg, e)] else s.tasks, s.lost, s.down, id)
  {
    hide Answer, Answers, Log, Only, Settled;
    AnswerShape(cfg, e);
    if !e.Dispatched? {
      OnlyShort(Answer(cfg, e), e.id, id);
      OnlyShort([], e.id, id);
    }
  }

  lemma ReadKeeps(cfg: Config, s: State, id: uint32)
    requires Global(cfg, s) && Mine(cfg, s, id) && CanRead(s)
    ensures Global(cfg, DoRead(cfg, s)) && Mine(cfg, DoRead(cfg, s), id)
  {
    hide Sends, Owes, Shows, Only, Table, Log, MuxServer.React, Answer, EffectsOf;
    var f, mine := s.up[s.read], Only(s.up[..s.read], id);
    OnlyAdvance(s.up, s.read, id);
    ReadGlobal(cfg, s);
    if f.id == id {
      ReadIsPlanned(cfg, s, s.read + 1, id);
      NonInterference(cfg.parse, s.up[..s.read], id);
      OwesRead(cfg, mine, s, f, id);
    } else {
      assert mine + [] == mine;
      OwesOther(cfg, mine, s, MuxServer.React(cfg.parse, Slot(s.streams, f.id), f).1, id);
    }
  }

  lemma ReadGlobal(cfg: Config, s: State)
    requires Global(cfg, s) && CanRead(s)
    ensures Global(cfg, DoRead(cfg, s))
  {
    hide Table, Log, MuxServer.React, Answer, Put, Slot;
    var f := s.up[s.read];
    Snoc(cfg.parse, s.up[..s.read], f);
    assert s.up[..s.read] + [f] == s.up[..s.read + 1];
    AnswerShape(cfg, MuxServer.React(cfg.parse, Slot(s.streams, f.id), f).1);
  }

  lemma GlobalKept(cfg: Config, s: State, step: Step)
    requires Inv(cfg, s) && Enabled(cfg, s, step)
    ensures Global(cfg, Apply(cfg, s, step))
  {
    hide Mine, Table, Answer, MuxServer.React, Page.React;
    match step
    case Open(j) => TakeSnoc(s.up, s.read, Script(j, cfg.requests[j])[0]);
    case Upload(j) => TakeSnoc(s.up, s.read, Script(j, cfg.requests[j])[s.sent[j]]);
    case Read => ReadGlobal(cfg, s);
    case Abort(j) => TakeSnoc(s.up, s.read, Frame(CANCEL, j, []));
    case _ =>
  }

  lemma StepKeeps(cfg: Config, s: State, step: Step)
    requires Inv(cfg, s) && Enabled(cfg, s, step)
    ensures Inv(cfg, Apply(cfg, s, step))
  {
    hide Mine, Table, DoOpen, DoUpload, DoRead, DoFlush, DoEmit, DoReceive, DoAbort, DoDisconnect;
    GlobalKept(cfg, s, step);
    forall id
      ensures Mine(cfg, Apply(cfg, s, step), id)
    {
      assert Mine(cfg, s, id);
      match step
      case Open(j) => OpenKeeps(cfg, s, j, id);
      case Upload(j) => UploadKeeps(cfg, s, j, id);
      case Read => ReadKeeps(cfg, s, id);
      case Flush(ok) => FlushKeeps(cfg, s, ok, id);
      case Emit(j, ok) =>
        assert Mine(cfg, s, j);
        EmitKeeps(cfg, s, j, ok, id);
      case Receive => ReceiveKeeps(cfg, s, id);
      case Abort(j) =>
        assert Mine(cfg, s, j);
        AbortKeeps(cfg, s, j, id);
      case Disconnect => DisconnectKeeps(cfg, s, id);
    }
  }

  lemma {:induction false} Reachable(cfg: Config, steps: seq<Step>)
    ensures Inv(cfg, Exec(cfg, steps))
  {
    if steps != [] {
      var s, step := Exec(cfg, steps[..|steps| - 1]), steps[|steps| - 1];
      Reachable(cfg, steps[..|steps| - 1]);
      if Enabled(cfg, s, step) {
        StepKeeps(cfg, s, step);
      }
    }
  }

  // ----- what every run guarantees ----------------------------------------------------------

  /** The whole reply to one request, as its own frames alone determine it. */
  function FullAnswer(cfg: Config, id: uint32): seq<Frame>
    requires id in cfg.requests
  {
    Answers(cfg, Log(cfg.parse, Script(id, cfg.requests[id])))
  }

  lemma {:induction false} AnswersPrefix(cfg: Config, frames: seq<Frame>, n: nat)
    requires n <= |frames|
    ensures Answers(cfg, Log(cfg.parse, frames[..n])) <= Answers(cfg, Log(cfg.parse, frames))
  {
    hide Answers, Answer, Log, Table, MuxServer.React;
    if n == |frames| {
      assert frames[..n] == frames;
    } else {
      var front := frames[..|frames| - 1];
      AnswersPrefix(cfg, front, n);
      assert front[..n] == frames[..n] && front + [frames[|frames| - 1]] == frames;
      SnocAnswers(cfg, front, frames[|frames| - 1]);
    }
  }

  /** Once the END of a request has been read its stream is gone. */
  lemma GoneAfterEnd(cfg: Config, id: uint32)
    requires id in cfg.requests
    ensures Slot(Table(cfg.parse, Script(id, cfg.requests[id])), id) == None
  {
    var script := Script(id, cfg.requests[id]);
    var front, last := script[..|script| - 1], script[|script| - 1];
    assert front + [last] == script && last == Frame(END, id, []);
    SnocAnswers(cfg, front, last);
    ReactPlanned(cfg, Slot(Table(cfg.parse, front), id), last);
    hide Answers, Answer, Log, Table, Script;
  }

  lemma PlanAnswer(cfg: Config, id: uint32)
    requires id in cfg.requests
    ensures Answers(cfg, Log(cfg.parse, Plan(id, cfg.requests[id]))) == FullAnswer(cfg, id)
  {
    hide Answers, Answer, Log, Table, Script, MuxServer.React;
    var cancel := Frame(CANCEL, id, []);
    GoneAfterEnd(cfg, id);
    SnocAnswers(cfg, Script(id, cfg.requests[id]), cancel);
    ReactPlanned(cfg, None, cancel);
  }

  lemma DueIsPrefix(cfg: Config, s: State, id: uint32)
    requires s.read <= |s.up| && s.taken <= |s.down| && Mine(cfg, s, id) && id in s.sent
    ensures id in cfg.requests
    ensures Answers(cfg, Log(cfg.parse, Only(s.up[..s.read], id))) <= FullAnswer(cfg, id)
  {
    hide Answers, Log, Table, Script, Plan, Shows, Owes, Only;
    ReadIsPlanned(cfg, s, s.read, id);
    var mine, plan := Only(s.up[..s.read], id), Plan(id, cfg.requests[id]);
    AnswersPrefix(cfg, plan, |mine|);
    PlanAnswer(cfg, id);
    NothingYet(cfg, id);
    if mine == [] {
      assert [] <= FullAnswer(cfg, id);
    } else {
      assert plan[..|mine|] == mine;
    }
  }

  /** At every moment of every run, cancellations, failed sends and a closed connection included: the frames sent to the
      page for a stream are the beginning of that stream's own reply, and the bytes the page has been given are the
      beginning of the bytes of that reply. */
  lemma OwnReplyOnly(cfg: Config, steps: seq<Step>, id: uint32)
    requires id in Exec(cfg, steps).views
    ensures id in cfg.requests
    ensures Only(Exec(cfg, steps).down, id) <= FullAnswer(cfg, id)
    ensures Exec(cfg, steps).views[id].bytes <= Page.Fold(cfg.inits, FullAnswer(cfg, id)).bytes
  {
    hide Exec, Answers, Log, Table, Script, Sends, Only, Page.Fold;
    var s := Exec(cfg, steps);
    Reachable(cfg, steps);
    assert Mine(cfg, s, id);
    DueIsPrefix(cfg, s, id);
    var heard, whole := Only(s.down[..s.taken], id), FullAnswer(cfg, id);
    OnlyTake(s.down, s.taken, id);
    assert heard <= Only(s.down, id) <= whole;
    Page.FoldGrows(cfg.inits, whole, |heard|);
    assert whole[..|heard|] == heard;
  }

  /** Nothing more will happen unless the page opens another request, cancels, or disconnects. */
  ghost predicate Quiet(cfg: Config, s: State) {
    && !s.closed && s.outbox == [] && s.read == |s.up| && s.taken == |s.down|
    && (forall id :: id in s.tasks ==> s.tasks[id] == [])
    && (forall id :: id in s.sent ==> id in cfg.requests && s.sent[id] == |Script(id, cfg.requests[id])|)
  }

  /** The machine never gets stuck before that: some actor can always move on. */
  lemma NeverStuck(cfg: Config, steps: seq<Step>) returns (step: Step)
    requires !Exec(cfg, steps).closed && !Quiet(cfg, Exec(cfg, steps))
    ensures Enabled(cfg, Exec(cfg, steps), step)
    ensures step.Upload? || step == Read || step == Flush(true) || (step.Emit? && step.ok) || step == Receive
  {
    hide Exec, Owes, Shows, Table, Only, Script;
    var s := Exec(cfg, steps);
    Reachable(cfg, steps);
    if s.outbox != [] {
      step := Flush(true);
    } else if s.read < |s.up| {
      step := Read;
    } else if s.taken < |s.down| {
      step := Receive;
    } else if id :| id in s.tasks && s.tasks[id] != [] {
      step := Emit(id, true);
    } else {
      var id :| id in s.sent && !(id in cfg.requests && s.sent[id] == |Script(id, cfg.requests[id])|);
      assert Mine(cfg, s, id);
      step := Upload(id);
    }
  }

  // ----- every run comes to rest ------------------------------------------------------------

  /** The total over all streams of what a map says of each; `n` is one more than the largest id looked at. */
  function Total(m: map<uint32, nat>, n: nat): nat
    requires n <= 0x1_0000_0000
  {
    if n == 0 then 0 else Total(m, n - 1) + if n - 1 in m then m[n - 1] else 0
  }

  lemma {:induction false} TotalUpdate(m: map<uint32, nat>, id: uint32, v: nat, n: nat)
    requires n <= 0x1_0000_0000
    ensures Total(m[id := v], n) == if id < n then Total(m, n) - (if id in m then m[id] else 0) + v else Total(m, n)
  {
    if n > 0 {
      TotalUpdate(m, id, v, n - 1);
    }
  }

  /** The frames each opened request has yet to send. */
  function Unsent(cfg: Config, sent: map<uint32, nat>): map<uint32, nat> {
    map id | id in sent :: if id in cfg.requests && sent[id] <= |Script(id, cfg.requests[id])|
                           then |Script(id, cfg.requests[id])| - sent[id] else 0
  }

  function Lengths(tasks: map<uint32, seq<Frame>>): map<uint32, nat> {
    map id | id in tasks :: |tasks[id]|
  }

  /** What is left to do: frames to upload, frames to read, frames to send back, frames to receive. */
  datatype Work = Work(upload: nat, read: nat, send: nat, receive: nat)

  function Left(cfg: Config, s: State, all: nat): Work
    requires s.read <= |s.up| && s.taken <= |s.down| && all <= 0x1_0000_0000
  {
    Work(Total(Unsent(cfg, s.sent), all), |s.up| - s.read, |s.outbox| + Total(Lengths(s.tasks), all), |s.down| - s.taken)
  }

  /** Less work in the first place where the two differ. */
  predicate Less(a: Work, b: Work) {
    || a.upload < b.upload
    || (a.upload == b.upload && a.read < b.read)
    || (a.upload == b.upload && a.read == b.read && a.send < b.send)
    || (a.upload == b.upload && a.read == b.read && a.send == b.send && a.receive < b.receive)
  }

  /** The steps that carry requests and replies on, failing sends included. */
  predicate Working(step: Step) {
    step.Upload? || step.Read? || step.Flush? || step.Emit? || step.Receive?
  }

  lemma StepLessens(cfg: Config, s: State, step: Step, all: nat)
    requires s.read <= |s.up| && s.taken <= |s.down| && all == 0x1_0000_0000
    requires Enabled(cfg, s, step) && Working(step)
    ensures var s' := Apply(cfg, s, step);
            && s'.read <= |s'.up| && s'.taken <= |s'.down| && s'.closed == s.closed
            && Less(Left(cfg, s', all), Left(cfg, s, all))
  {
    hide Total, Unsent, Lengths, Script, MuxServer.React, Page.React, Answer;
    match step
    case Upload(id) => UploadLessens(cfg, s, id, all);
    case Emit(id, ok) => EmitLessens(s.tasks, id, if ok then s.tasks[id][1..] else [], all);
    case _ =>
  }

  lemma UploadLessens(cfg: Config, s: State, id: uint32, all: nat)
    requires CanUpload(cfg, s, id) && all == 0x1_0000_0000
    ensures Total(Unsent(cfg, DoUpload(cfg, s, id).sent), all) < Total(Unsent(cfg, s.sent), all)
  {
    hide Total, Script;
    var left := |Script(id, cfg.requests[id])| - s.sent[id];
    TotalUpdate(Unsent(cfg, s.sent), id, left - 1, all);
    assert Unsent(cfg, s.sent[id := s.sent[id] + 1]) == Unsent(cfg, s.sent)[id := left - 1];
  }

  lemma EmitLessens(tasks: map<uint32, seq<Frame>>, id: uint32, task: seq<Frame>, all: nat)
    requires id in tasks && |task| < |tasks[id]| && all == 0x1_0000_0000
    ensures Total(Lengths(tasks[id := task]), all) < Total(Lengths(tasks), all)
  {
    hide Total;
    TotalUpdate(Lengths(tasks), id, |task|, all);
    assert Lengths(tasks[id := task]) == Lengths(tasks)[id := |task|];
  }

  /** A run continued by the first `n` steps of an endless schedule. */
  function Continued(steps: seq<Step>, schedule: nat -> Step, n: nat): (r: seq<Step>)
    ensures |r| == |steps| + n && r[..|steps|] == steps
    ensures n > 0 ==> r[|r| - 1] == schedule(n - 1) && r[..|r| - 1] == Continued(steps, schedule, n - 1)
  {
    if n == 0 then steps else Continued(steps, schedule, n - 1) + [schedule(n - 1)]
  }

  /** Some step that carries the work on is taken as long as there is one. */
  ghost predicate KeepsWorking(cfg: Config, steps: seq<Step>, schedule: nat -> Step) {
    forall n :: var s := Exec(cfg, Continued(steps, schedule, n));
      Quiet(cfg, s) || (Working(schedule(n)) && Enabled(cfg, s, schedule(n)))
  }

  /** Every run on an open connection that keeps working comes to rest, whichever steps it takes and in whatever order. */
  lemma EveryRunComesToRest(cfg: Config, steps: seq<Step>, schedule: nat -> Step) returns (n: nat)
    requires !Exec(cfg, steps).closed && KeepsWorking(cfg, steps, schedule)
    ensures Quiet(cfg, Exec(cfg, Continued(steps, schedule, n)))
  {
    assert Continued(steps, schedule, 0) == steps;
    n := RestAfter(cfg, steps, schedule, 0, 0x1_0000_0000);
  }

  lemma {:induction false} RestAfter(cfg: Config, steps: seq<Step>, schedule: nat -> Step, k: nat, all: nat) returns (n: nat)
    requires !Exec(cfg, Continued(steps, schedule, k)).closed && KeepsWorking(cfg, steps, schedule) && all == 0x1_0000_0000
    ensures Quiet(cfg, Exec(cfg, Continued(steps, schedule, n)))
    decreases WorkAt(cfg, Continued(steps, schedule, k), all).upload, WorkAt(cfg, Continued(steps, schedule, k), all).read,
              WorkAt(cfg, Continued(steps, schedule, k), all).send, WorkAt(cfg, Continued(steps, schedule, k), all).receive
  {
    hide Quiet, Enabled, Working, Left, Exec, WorkAt;
    var now := Continued(steps, schedule, k);
    if Quiet(cfg, Exec(cfg, now)) {
      n := k;
    } else {
      StepDone(cfg, now, schedule(k), all);
      assert Continued(steps, schedule, k + 1) == now + [schedule(k)];
      n := RestAfter(cfg, steps, schedule, k + 1, all);
    }
  }

  ghost function WorkAt(cfg: Config, steps: seq<Step>, all: nat): Work
    requires all == 0x1_0000_0000
  {
    Reachable(cfg, steps);
    Left(cfg, Exec(cfg, steps), all)
  }

  lemma StepDone(cfg: Config, steps: seq<Step>, step: Step, all: nat)
    requires Enabled(cfg, Exec(cfg, steps), step) && Working(step) && all == 0x1_0000_0000
    ensures Exec(cfg, steps + [step]).closed == Exec(cfg, steps).closed
    ensures Less(WorkAt(cfg, steps + [step], all), WorkAt(cfg, steps, all))
  {
    hide Enabled, Working, Left, Less, Mine;
    Reachable(cfg, steps);
    assert (steps + [step])[..|steps|] == steps;
    StepLessens(cfg, Exec(cfg, steps), step, all);
  }

  /** When the run has gone quiet, every stream that was not cancelled and had no failed send shows its whole reply. */
  lemma WholeReplyDelivered(cfg: Config, steps: seq<Step>, id: uint32)
    requires Quiet(cfg, Exec(cfg, steps))
    requires var s := Exec(cfg, steps); id in s.views && id !in s.aborted && id !in s.lost
    ensures id in cfg.requests
    ensures Exec(cfg, steps).views[id] == Page.Fold(cfg.inits, FullAnswer(cfg, id))
  {
    hide Exec, Answers, Log, Table, Only, Page.Fold;
    var s := Exec(cfg, steps);
    Reachable(cfg, steps);
    assert Mine(cfg, s, id);
    assert s.up[..s.read] == s.up && s.down[..s.taken] == s.down;
    var script := Script(id, cfg.requests[id]);
    assert script[..|script|] == script;
    NothingYet(cfg, id);
    assert Only(s.down, id) + [] + [] == Only(s.down, id);
  }

  /** The runtime cancels only streams the server has already forgotten, so in no run does a CANCEL frame stop anything:
      the upstream request is never cancelled by the page. */
  lemma CancelIsNoOp(cfg: Config, steps: seq<Step>)
    requires var s := Exec(cfg, steps); s.read < |s.up| && s.up[s.read].kind == CANCEL
    ensures var s := Exec(cfg, steps); s.up[s.read].id !in s.streams
  {
    hide Exec, Owes, Shows, Table, Only, Script, Log;
    var s := Exec(cfg, steps);
    Reachable(cfg, steps);
    var f := s.up[s.read];
    assert Mine(cfg, s, f.id);
    OnlyAdvance(s.up, s.read, f.id);
    var mine, all := Only(s.up[..s.read], f.id), Only(s.up, f.id);
    assert all[|mine|] == f;
    CancelComesLast(cfg, s, f.id, mine, f);
    NonInterference(cfg.parse, s.up[..s.read], f.id);
    GoneAfterEnd(cfg, f.id);
  }

  lemma CancelComesLast(cfg: Config, s: State, id: uint32, mine: seq<Frame>, f: Frame)
    requires Sends(cfg, s.sent, s.aborted, s.up, id)
    requires mine + [f] <= Only(s.up, id) && f.kind == CANCEL
    ensures id in cfg.requests && mine == Script(id, cfg.requests[id])
  {
    hide Only;
    var all := Only(s.up, id);
    assert (mine + [f])[|mine|] == f == all[|mine|];
    var script, plan := Script(id, cfg.requests[id]), Plan(id, cfg.requests[id]);
    assert all <= plan;
    PlanShape(id, cfg.requests[id], |mine|);
    assert mine == plan[..|mine|] == script;
  }

  // ----- what the reply is ------------------------------------------------------------------

  predicate ValidMetadata(cfg: Config, r: Request) {
    r.metadata in cfg.parse && cfg.parse[r.metadata].url != "" && cfg.parse[r.metadata].verb != ""
  }

  /** The upload so far is held, or was too large and answered. */
  ghost predicate Uploaded(cfg: Config, id: uint32, meta: Meta, frames: seq<Frame>, body: seq<byte>) {
    var (slot, answers) := (Slot(Table(cfg.parse, frames), id), Answers(cfg, Log(cfg.parse, frames)));
    if |body| <= MAX_BODY then slot == Some(Stream(meta, body)) && answers == []
    else slot == None && answers == [ErrorFrame(id, BODY_TOO_LARGE)]
  }

  lemma {:induction false} UploadSoFar(cfg: Config, id: uint32, k: nat)
    requires id in cfg.requests && k <= |cfg.requests[id].chunks| && ValidMetadata(cfg, cfg.requests[id])
    ensures var r := cfg.requests[id];
            Uploaded(cfg, id, cfg.parse[r.metadata], Script(id, r)[..k + 1], Concat(r.chunks[..k]))
  {
    hide Answers, Log, Table, Ascii;
    var r := cfg.requests[id];
    var script := Script(id, r);
    if k == 0 {
      NothingYet(cfg, id);
      StartStep(cfg, id, script[0]);
      assert script[..1] == [] + [script[0]] && r.chunks[..0] == [];
    } else {
      hide Uploaded;
      UploadSoFar(cfg, id, k - 1);
      assert script[..k + 1] == script[..k] + [script[k]];
      assert r.chunks[..k] == r.chunks[..k - 1] + [r.chunks[k - 1]];
      ConcatSnoc(r.chunks[..k - 1], r.chunks[k - 1]);
      ChunkStep(cfg, id, cfg.parse[r.metadata], script[..k], Concat(r.chunks[..k - 1]), r.chunks[k - 1]);
    }
  }

  lemma ChunkStep(cfg: Config, id: uint32, meta: Meta, frames: seq<Frame>, body: seq<byte>, chunk: seq<byte>)
    requires Uploaded(cfg, id, meta, frames, body)
    ensures Uploaded(cfg, id, meta, frames + [Frame(CHUNK, id, chunk)], body + chunk)
  {
    hide Answers, Log, Table, Ascii, ErrorFrame;
    SnocAnswers(cfg, frames, Frame(CHUNK, id, chunk));
  }

  lemma StartStep(cfg: Config, id: uint32, f: Frame)
    requires f.kind == START && f.id == id && f.payload in cfg.parse
    requires cfg.parse[f.payload].url != "" && cfg.parse[f.payload].verb != ""
    ensures Slot(Table(cfg.parse, [] + [f]), id) == Some(Stream(cfg.parse[f.payload], []))
    ensures Answers(cfg, Log(cfg.parse, [] + [f])) == []
  {
    hide Answers, Log, Table;
    NothingYet(cfg, id);
    SnocAnswers(cfg, [], f);
  }

  /** An accepted upload within the limit is answered as the upstream answers the request with exactly the body the page
      sent; a larger one gets a single error and never reaches the upstream. */
  lemma ReplyToUpload(cfg: Config, id: uint32)
    requires id in cfg.requests && ValidMetadata(cfg, cfg.requests[id])
    ensures var r := cfg.requests[id]; var body := Concat(r.chunks);
            FullAnswer(cfg, id)
            == if |body| <= MAX_BODY then Word(id, Respond(cfg, Query(id, cfg.parse[r.metadata], body)))
               else [ErrorFrame(id, BODY_TOO_LARGE)]
  {
    hide Answers, Log, Table, Concat, Word, Ascii;
    var r := cfg.requests[id];
    var script := Script(id, r);
    var front := script[..|r.chunks| + 1];
    UploadSoFar(cfg, id, |r.chunks|);
    assert r.chunks[..|r.chunks|] == r.chunks;
    assert script == front + [Frame(END, id, [])];
    SnocAnswers(cfg, front, Frame(END, id, []));
  }

  /** A START whose metadata is unusable is refused, and nothing that follows it is read. */
  lemma ReplyToBadMetadata(cfg: Config, id: uint32)
    requires id in cfg.requests && !ValidMetadata(cfg, cfg.requests[id])
    ensures FullAnswer(cfg, id) == [ErrorFrame(id, INVALID_METADATA)]
  {
    var script := Script(id, cfg.requests[id]);
    RefusedSoFar(cfg, id, |script|);
    assert script[..|script|] == script;
  }

  lemma {:induction false} RefusedSoFar(cfg: Config, id: uint32, k: nat)
    requires id in cfg.requests && !ValidMetadata(cfg, cfg.requests[id])
    requires 0 < k <= |Script(id, cfg.requests[id])|
    ensures var frames := Script(id, cfg.requests[id])[..k];
            && Slot(Table(cfg.parse, frames), id) == None
            && Answers(cfg, Log(cfg.parse, frames)) == [ErrorFrame(id, INVALID_METADATA)]
  {
    hide Answers, Log, Table, Ascii, Plan;
    var script := Script(id, cfg.requests[id]);
    NothingYet(cfg, id);
    assert script[..k] == script[..k - 1] + [script[k - 1]];
    SnocAnswers(cfg, script[..k - 1], script[k - 1]);
    if k == 1 {
      assert script[..0] == [];
    } else {
      RefusedSoFar(cfg, id, k - 1);
    }
  }

  // ----- what the page makes of it ----------------------------------------------------------

  /** What the page reads in a response's metadata, if it can. */
  function InitOf(inits: Page.InitParser, metadata: seq<byte>): Option<Page.Init> {
    if metadata in inits then Some(inits[metadata]) else None
  }

  /** What the page should show of a reply. Where `new Response` takes its metadata, a finished reply closes the body on
      exactly the upstream's bytes and an interrupted one fails it after them; a null-body status delivers no bytes.
      Otherwise the fetch never settles, except that an interrupted reply rejects it when no body stream was made. The
      fetch stays pending only while the reply is open. */
  function Shown(init: Option<Page.Init>, chunks: seq<seq<byte>>, ending: Ending): Page.View {
    var open := ending == Waiting;
    var bodiless := init.None? || Page.NullBody(init.value.status);
    if init.Some? && Page.Constructible(init.value) then
      if bodiless then Page.View(Page.Bodiless, [], Page.Unset, open)
      else
        var phase := match ending case Waiting => Page.Streaming case Finished => Page.Closed case Interrupted => Page.Errored;
        Page.View(phase, Concat(chunks), Page.Own, open)
    else if bodiless then
      Page.View(if ending == Interrupted then Page.Rejected else Page.Waiting, [], Page.Unset, open)
    else
      Page.View(Page.Waiting, [], Page.Hidden, open)
  }

  lemma {:induction false} FoldChunks(inits: Page.InitParser, id: uint32, metadata: seq<byte>,
                                      chunks: seq<seq<byte>>)
    ensures Page.Fold(inits, [Frame(RESPONSE, id, metadata)] + ChunkFrames(id, chunks))
            == Shown(InitOf(inits, metadata), chunks, Waiting)
  {
    hide Shown, InitOf, Page.React;
    var first := Frame(RESPONSE, id, metadata);
    if chunks == [] {
      assert [first] + ChunkFrames(id, chunks) == [] + [first];
      Page.FoldSnoc(inits, [], first);
      ShowsResponse(inits, id, metadata);
    } else {
      var front, last := chunks[..|chunks| - 1], chunks[|chunks| - 1];
      FoldChunks(inits, id, metadata, front);
      var frames := [first] + ChunkFrames(id, front);
      assert [first] + ChunkFrames(id, chunks) == frames + [Frame(RESPONSE_CHUNK, id, last)];
      hide Page.Fold;
      Page.FoldSnoc(inits, frames, Frame(RESPONSE_CHUNK, id, last));
      ShowsChunk(inits, InitOf(inits, metadata), id, front, last);
      assert front + [last] == chunks;
    }
  }

  lemma ShowsResponse(inits: Page.InitParser, id: uint32, metadata: seq<byte>)
    ensures Page.React(inits, Page.FRESH, Frame(RESPONSE, id, metadata)) == Shown(InitOf(inits, metadata), [], Waiting)
  {
    hide Page.Constructible, Page.NullBody;
  }

  lemma ShowsChunk(inits: Page.InitParser, init: Option<Page.Init>, id: uint32, chunks: seq<seq<byte>>, chunk: seq<byte>)
    ensures Page.React(inits, Shown(init, chunks, Waiting), Frame(RESPONSE_CHUNK, id, chunk))
            == Shown(init, chunks + [chunk], Waiting)
  {
    hide Page.Constructible, Page.NullBody, Concat;
    ConcatSnoc(chunks, chunk);
  }

  lemma PageSeesReply(inits: Page.InitParser, id: uint32, metadata: seq<byte>, chunks: seq<seq<byte>>,
                      ending: Ending)
    ensures Page.Fold(inits, Word(id, Answered(metadata, chunks, ending)))
            == Shown(InitOf(inits, metadata), chunks, ending)
  {
    hide Page.Fold, Concat, Ascii;
    var frames := [Frame(RESPONSE, id, metadata)] + ChunkFrames(id, chunks);
    FoldChunks(inits, id, metadata, chunks);
    assert Word(id, Answered(metadata, chunks, ending)) == frames + Final(id, ending);
    if ending == Waiting {
      assert frames + [] == frames;
    } else {
      Page.FoldSnoc(inits, frames, Final(id, ending)[0]);
    }
  }

  /** What `new Response` takes apart from the status. */
  predicate Presentable(init: Page.Init) {
    Page.ReasonPhrase(init.statusText)
    && forall name :: name in init.headers ==> Page.HeaderName(name) && Page.HeaderValue(init.headers[name])
  }

  /** What a reader of the body sees of a reply: under 204, 205 and 304 nothing, and under every other status between 200
      and 599 the bytes, closed if the reply was finished and failed if it broke off. */
  ghost predicate ShowsBody(v: Page.View, init: Page.Init, bytes: seq<byte>, ending: Ending) {
    200 <= init.status <= 599 && Presentable(init) ==>
      if init.status == 204 || init.status == 205 || init.status == 304 then v.phase == Page.Bodiless && v.bytes == []
      else
        && v.bytes == bytes
        && (ending == Finished ==> v.phase == Page.Closed)
        && (ending == Interrupted ==> v.phase == Page.Errored)
        && (ending == Waiting ==> v.phase == Page.Streaming)
  }

  /** Which replies have a body for the page. */
  lemma PageReadsBody(inits: Page.InitParser, id: uint32, metadata: seq<byte>, chunks: seq<seq<byte>>, ending: Ending)
    requires metadata in inits
    ensures ShowsBody(Page.Fold(inits, Word(id, Answered(metadata, chunks, ending))), inits[metadata], Concat(chunks), ending)
  {
    hide Page.Fold, Word, Concat, Page.ReasonPhrase, Page.HeaderName, Page.HeaderValue;
    PageSeesReply(inits, id, metadata, chunks, ending);
  }

  /** A finished reply settles the page's fetch exactly when its metadata can be read and `new Response` takes it. */
  lemma FinishedFetchSettles(inits: Page.InitParser, id: uint32, metadata: seq<byte>, chunks: seq<seq<byte>>)
    ensures Page.Fold(inits, Word(id, Answered(metadata, chunks, Finished))).phase != Page.Waiting
            <==> metadata in inits && Page.Constructible(inits[metadata])
  {
    hide Page.Fold, Word, Page.Constructible;
    PageSeesReply(inits, id, metadata, chunks, Finished);
  }

  predicate Printable(s: string) {
    forall c :: c in s ==> ' ' <= c <= '~'
  }

  /** Ordinary replies settle: a status between 200 and 599, printable ASCII for its text and for every header value, and
      header names of letters, digits and hyphens. */
  lemma OrdinaryReplySettles(inits: Page.InitParser, id: uint32, metadata: seq<byte>, chunks: seq<seq<byte>>)
    requires metadata in inits
    requires var init := inits[metadata];
             && 200 <= init.status <= 599 && Printable(init.statusText)
             && forall name :: name in init.headers ==>
                  && name != "" && Printable(init.headers[name])
                  && forall c :: c in name ==> 'a' <= c <= 'z' || 'A' <= c <= 'Z' || '0' <= c <= '9' || c == '-'
    ensures Page.Fold(inits, Word(id, Answered(metadata, chunks, Finished))).phase != Page.Waiting
  {
    hide Page.Fold, Word, Page.HttpSpace;
    FinishedFetchSettles(inits, id, metadata, chunks);
    var init := inits[metadata];
    forall name | name in init.headers
      ensures Page.HeaderName(name) && Page.HeaderValue(init.headers[name])
    {
      PlainHeader(name, init.headers[name]);
    }
    hide Page.HeaderName, Page.HeaderValue;
  }

  lemma PlainHeader(name: string, value: string)
    requires name != "" && Printable(value)
    requires forall c :: c in name ==> 'a' <= c <= 'z' || 'A' <= c <= 'Z' || '0' <= c <= '9' || c == '-'
    ensures Page.HeaderName(name) && Page.HeaderValue(value)
  {
    hide Page.HttpSpace;
    forall k | 0 <= k < |value|
      ensures ' ' <= value[k] <= '~'
    {
      assert value[k] in value;
    }
    assert Headers.IsTokenChar('-') by {
      Headers.LettersAreToken('-');
    }
  }

  /** One header value or status text beyond U+00FF is enough: the page's fetch never settles, whatever the status. */
  lemma WideTextNeverSettles(inits: Page.InitParser, id: uint32, metadata: seq<byte>, chunks: seq<seq<byte>>)
    requires metadata in inits
    requires var init := inits[metadata];
             !Page.ByteString(init.statusText)
             || exists name :: name in init.headers && !(Page.ByteString(name) && Page.ByteString(init.headers[name]))
    ensures Page.Fold(inits, Word(id, Answered(metadata, chunks, Finished))).phase == Page.Waiting
  {
    hide Page.Fold, Word, Page.HttpSpace;
    FinishedFetchSettles(inits, id, metadata, chunks);
    assert forall c :: Headers.IsTokenChar(c) ==> c as int <= 0xFF by {
      TokensAreBytes();
    }
  }

  lemma TokensAreBytes()
    ensures forall c :: Headers.IsTokenChar(c) ==> c as int <= 0xFF
  {
  }

  /** For one, a download with a file name in Chinese, sent as it is under status 200. */
  lemma RawFileNameNeverSettles(inits: Page.InitParser, id: uint32, metadata: seq<byte>, chunks: seq<seq<byte>>, value: string)
    requires value == "attachment; filename=\U{62A5}\U{544A}.pdf"
    requires metadata in inits && inits[metadata] == Page.Init(200, "OK", map["Content-Disposition" := value])
    ensures Page.Fold(inits, Word(id, Answered(metadata, chunks, Finished))).phase == Page.Waiting
  {
    hide Page.Fold, Word, Page.HttpSpace, Page.ReasonPhrase, Page.HeaderName;
    assert value[21] == '\U{62A5}';
    assert value[21] in value && value[21] as int > 0xFF;
    var headers := inits[metadata].headers;
    assert "Content-Disposition" in headers && headers["Content-Disposition"] == value;
    WideTextNeverSettles(inits, id, metadata, chunks);
  }

  lemma PageSeesError(inits: Page.InitParser, id: uint32, message: string)
    ensures Page.Fold(inits, [ErrorFrame(id, message)]) == Page.View(Page.Rejected, [], Page.Unset, false)
  {
    hide Ascii;
    assert [] + [ErrorFrame(id, message)] == [ErrorFrame(id, message)];
    Page.FoldSnoc(inits, [], ErrorFrame(id, message));
  }

  /** End to end: in every interleaving of every run that has gone quiet, a stream that was not cancelled and had no
      failed send was answered by the upstream for exactly the bytes its page uploaded, and the page shows exactly that
      answer: its bytes in order, then one end or one error. */
  lemma EndToEnd(cfg: Config, steps: seq<Step>, id: uint32)
    requires Quiet(cfg, Exec(cfg, steps))
    requires var s := Exec(cfg, steps); id in s.views && id !in s.aborted && id !in s.lost
    ensures id in cfg.requests
    ensures var r := cfg.requests[id]; var v := Exec(cfg, steps).views[id];
            if !ValidMetadata(cfg, r) || |Concat(r.chunks)| > MAX_BODY then v == Page.View(Page.Rejected, [], Page.Unset, false)
            else
              match Respond(cfg, Query(id, cfg.parse[r.metadata], Concat(r.chunks)))
              case Denied(_) => v == Page.View(Page.Rejected, [], Page.Unset, false)
              case Answered(metadata, chunks, ending) =>
                && v == Shown(InitOf(cfg.inits, metadata), chunks, ending)
                && (metadata in cfg.inits ==> ShowsBody(v, cfg.inits[metadata], Concat(chunks), ending))
  {
    hide Exec, Quiet, Answers, Log, Table, Page.Fold, Concat, Ascii, Script, ErrorFrame, Shown, ShowsBody;
    WholeReplyDelivered(cfg, steps, id);
    var r := cfg.requests[id];
    if !ValidMetadata(cfg, r) {
      ReplyToBadMetadata(cfg, id);
      PageSeesError(cfg.inits, id, INVALID_METADATA);
    } else {
      ReplyToUpload(cfg, id);
      if |Concat(r.chunks)| > MAX_BODY {
        PageSeesError(cfg.inits, id, BODY_TOO_LARGE);
      } else {
        match Respond(cfg, Query(id, cfg.parse[r.metadata], Concat(r.chunks)))
        case Denied(message) => PageSeesError(cfg.inits, id, message);
        case Answered(metadata, chunks, ending) =>
          PageSeesReply(cfg.inits, id, metadata, chunks, ending);
          if metadata in cfg.inits {
            PageReadsBody(cfg.inits, id, metadata, chunks, ending);
          }
      }
    }
  }

  /** From the upstream's body to the page's, in every interleaving. Where the answer is what `executeMux` makes of the
      guard's decision and the upstream's response, the page is rejected without a byte unless the target was allowed, the
      method is neither CONNECT nor TRACE and the round trip succeeded; and then it reads the bytes of the upstream's
      body up to the first read error, closed if that was the end of the body and failed if not. */
  lemma UpstreamToPage(cfg: Config, steps: seq<Step>, id: uint32, allowed: bool, trip: RoundTrip, n: nat)
    requires Quiet(cfg, Exec(cfg, steps))
    requires var s := Exec(cfg, steps); id in s.views && id !in s.aborted && id !in s.lost
    requires id in cfg.requests && ValidMetadata(cfg, cfg.requests[id]) && |Concat(cfg.requests[id].chunks)| <= MAX_BODY
    requires var r := cfg.requests[id]; var meta := cfg.parse[r.metadata];
             Respond(cfg, Query(id, meta, Concat(r.chunks))) == ReplyTo(meta.verb, allowed, trip)
    requires trip.Received? ==> FirstError(trip.results, n)
    ensures var v := Exec(cfg, steps).views[id]; var verb := cfg.parse[cfg.requests[id].metadata].verb;
            if verb == "CONNECT" || verb == "TRACE" || !allowed || trip.Failed? then v.phase == Page.Rejected && v.bytes == []
            else
              trip.metadata in cfg.inits ==>
                ShowsBody(v, cfg.inits[trip.metadata], Bytes(trip.results[..n]),
                          if trip.results[n - 1].error == Eof then Finished else Interrupted)
  {
    hide Exec, Quiet, Concat, Bytes, Shown, ShowsBody, ValidMetadata, NonEmpty, Consumed;
    EndToEnd(cfg, steps, id);
    if trip.Received? {
      StopsAtFirstError(trip.results, n);
      ChunksAreTheBytes(trip.results[..n]);
    }
  }

  /** The n-th read is the first that carries an error. */
  ghost predicate FirstError(results: seq<ReadResult>, n: nat) {
    0 < n <= |results| && results[n - 1].error != Nil && forall k :: 0 <= k < n - 1 ==> results[k].error == Nil
  }

  lemma StopsAtFirstError(results: seq<ReadResult>, n: nat)
    requires FirstError(results, n)
    ensures Consumed(results) == n
    ensures Chunks(results) == NonEmpty(results[..n])
    ensures EndingOf(results) == if results[n - 1].error == Eof then Finished else Interrupted
  {
    hide NonEmpty;
    assert Consumed(results) == n;
  }
}

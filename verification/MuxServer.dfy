/** The server half of the request multiplexer: the read loop of `serveMux` and its table of live streams. */
module MuxServer {
  import opened Wrappers
  import opened Frames

  const MAX_BODY := 32 * 1024 * 1024
  const DUPLICATE_STREAM := "error.proxy.mux.duplicate_stream"
  const INVALID_METADATA := "error.proxy.mux.invalid_metadata"
  const BODY_TOO_LARGE := "error.proxy.mux.body_too_large"

  datatype Meta = Meta(verb: string, url: string, headers: map<string, string>)
  datatype Stream = Stream(meta: Meta, body: seq<byte>)
  type Streams = map<uint32, Stream>

  /** Stands for `json.Unmarshal`: the payloads that parse, and what they parse to. A run reads finitely many
      payloads, so a finite map loses nothing. */
  type MetaParser = map<seq<byte>, Meta>

  /** What the loop does with one frame. `Refused` and `Overflowed` send an error frame back,
      `Dispatched` spawns `executeMux`. */
  datatype Effect =
    | Accepted(id: uint32, meta: Meta)
    | Refused(id: uint32, message: string)
    | Appended(id: uint32)
    | Overflowed(id: uint32)
    | Dispatched(id: uint32, meta: Meta, body: seq<byte>)
    | Cancelled(id: uint32)
    | Ignored(id: uint32)

  /** One stream's share of the table. */
  function Slot(streams: Streams, id: uint32): Option<Stream> {
    if id in streams then Some(streams[id]) else None
  }

  function Put(streams: Streams, id: uint32, slot: Option<Stream>): (r: Streams)
    ensures Slot(r, id) == slot
    ensures forall other :: other != id ==> Slot(r, other) == Slot(streams, other)
  {
    if slot.Some? then streams[id := slot.value] else streams - {id}
  }

  /** What a frame does to its own stream. */
  function React(parse: MetaParser, slot: Option<Stream>, f: Frame): (r: (Option<Stream>, Effect))
    ensures r.1.id == f.id
  {
    var id := f.id;
    if f.kind == START then
      if slot.Some? then (slot, Refused(id, DUPLICATE_STREAM))
      else if f.payload !in parse then (None, Refused(id, INVALID_METADATA))
      else
        var meta := parse[f.payload];
        if meta.url == "" || meta.verb == "" then (None, Refused(id, INVALID_METADATA))
        else (Some(Stream(meta, [])), Accepted(id, meta))
    else if slot.None? then (None, Ignored(id))
    else if f.kind == CHUNK then
      if |slot.value.body| + |f.payload| > MAX_BODY then (None, Overflowed(id))
      else (Some(slot.value.(body := slot.value.body + f.payload)), Appended(id))
    else if f.kind == END then (None, Dispatched(id, slot.value.meta, slot.value.body))
    else if f.kind == CANCEL then (None, Cancelled(id))
    else (slot, Ignored(id))
  }

  /** The table of live streams after a whole history of frames. */
  function Table(parse: MetaParser, frames: seq<Frame>): Streams {
    if frames == [] then map[]
    else
      var front, last := frames[..|frames| - 1], frames[|frames| - 1];
      Put(Table(parse, front), last.id, React(parse, Slot(Table(parse, front), last.id), last).0)
  }

  /** What the loop did with each frame of that history. */
  function Log(parse: MetaParser, frames: seq<Frame>): (log: seq<Effect>)
    ensures |log| == |frames|
  {
    if frames == [] then []
    else
      var front, last := frames[..|frames| - 1], frames[|frames| - 1];
      Log(parse, front) + [React(parse, Slot(Table(parse, front), last.id), last).1]
  }

  lemma Snoc(parse: MetaParser, frames: seq<Frame>, f: Frame)
    ensures var (slot, effect) := React(parse, Slot(Table(parse, frames), f.id), f);
            && Table(parse, frames + [f]) == Put(Table(parse, frames), f.id, slot)
            && Log(parse, frames + [f]) == Log(parse, frames) + [effect]
  {
    assert (frames + [f])[..|frames|] == frames;
  }

  lemma NothingRead(parse: MetaParser)
    ensures Table(parse, []) == map[] && Log(parse, []) == []
  {
  }

  lemma {:induction false} LogPrefix(parse: MetaParser, frames: seq<Frame>, n: nat)
    requires n <= |frames|
    ensures Log(parse, frames[..n]) == Log(parse, frames)[..n]
  {
    hide Table, Log, React;
    if n == |frames| {
      assert frames[..n] == frames;
    } else {
      var front := frames[..|frames| - 1];
      LogPrefix(parse, front, n);
      assert front[..n] == frames[..n] && front + [frames[|frames| - 1]] == frames;
      Snoc(parse, front, frames[|frames| - 1]);
    }
  }

  lemma LogAt(parse: MetaParser, frames: seq<Frame>, n: nat)
    requires n < |frames|
    ensures Log(parse, frames)[n] == React(parse, Slot(Table(parse, frames[..n]), frames[n].id), frames[n]).1
  {
    hide Table, Log, React;
    LogPrefix(parse, frames, n + 1);
    Snoc(parse, frames[..n], frames[n]);
    assert frames[..n] + [frames[n]] == frames[..n + 1];
  }

  // ----- the read loop itself ---------------------------------------------------------------

  datatype Message = Message(binary: bool, data: seq<byte>)

  /** The frames read before the first message on which the loop closes the connection. */
  function Accept(messages: seq<Message>): (frames: seq<Frame>)
    ensures |frames| <= |messages|
    ensures forall k :: 0 <= k < |frames| ==> messages[k].binary && Encode(frames[k]) == messages[k].data
  {
    if messages == [] || !messages[0].binary || Decode(messages[0].data).None? then []
    else
      EncodeInvertsDecode(messages[0].data);
      [Decode(messages[0].data).value] + Accept(messages[1..])
  }

  lemma {:induction false} AcceptStops(messages: seq<Message>, n: nat)
    requires n < |messages|
    requires forall k :: 0 <= k < n ==> messages[k].binary && Decode(messages[k].data).Some?
    ensures !messages[n].binary || Decode(messages[n].data).None? ==> |Accept(messages)| == n
    ensures messages[n].binary && Decode(messages[n].data).Some?
            ==> |Accept(messages)| > n && Accept(messages)[n] == Decode(messages[n].data).value
  {
    if n > 0 {
      AcceptStops(messages[1..], n - 1);
    }
  }

  lemma {:induction false} AcceptAll(messages: seq<Message>)
    requires forall k :: 0 <= k < |messages| ==> messages[k].binary && Decode(messages[k].data).Some?
    ensures |Accept(messages)| == |messages|
  {
    if messages != [] {
      AcceptAll(messages[1..]);
    }
  }

  method ServeMux(parse: MetaParser, messages: seq<Message>) returns (streams: Streams, log: seq<Effect>, closed: bool)
    ensures streams == Table(parse, Accept(messages)) && log == Log(parse, Accept(messages))
    ensures closed <==> |log| < |messages|
  {
    hide Table, Log, React, Decode, Accept;
    NothingRead(parse);
    streams, log, closed := map[], [], false;
    ghost var frames := Accept(messages);
    for n := 0 to |messages|
      invariant |log| == n <= |frames|
      invariant forall k :: 0 <= k < n ==> messages[k].binary && Decode(messages[k].data).Some?
      invariant streams == Table(parse, frames[..n]) && log == Log(parse, frames[..n])
      invariant !closed
    {
      AcceptStops(messages, n);
      var decoded := Decode(messages[n].data);
      if !messages[n].binary || decoded.None? {
        assert frames[..n] == frames;
        closed := true;
        return;
      }
      Snoc(parse, frames[..n], decoded.value);
      assert frames[..n] + [decoded.value] == frames[..n + 1];
      var effect;
      streams, effect := HandleFrame(parse, streams, decoded.value);
      log := log + [effect];
    }
    AcceptAll(messages);
    assert frames[..|messages|] == frames;
  }

  /** The body of the loop: the switch on the frame kind. */
  method HandleFrame(parse: MetaParser, states: Streams, f: Frame) returns (streams: Streams, effect: Effect)
    ensures var (slot, expected) := React(parse, Slot(states, f.id), f);
            streams == Put(states, f.id, slot) && effect == expected
  {
    var id := f.id;
    streams, effect := states, Ignored(id);
    if f.kind == START {
      if id in streams {
        return streams, Refused(id, DUPLICATE_STREAM);
      }
      if f.payload !in parse || parse[f.payload].url == "" || parse[f.payload].verb == "" {
        return streams, Refused(id, INVALID_METADATA);
      }
      return streams[id := Stream(parse[f.payload], [])], Accepted(id, parse[f.payload]);
    } else if f.kind == CHUNK {
      if id !in streams {
        return;
      }
      var state := streams[id];
      if |state.body| + |f.payload| > MAX_BODY {
        return streams - {id}, Overflowed(id);
      }
      return streams[id := state.(body := state.body + f.payload)], Appended(id);
    } else if f.kind == END {
      if id !in streams {
        return;
      }
      var state := streams[id];
      return streams - {id}, Dispatched(id, state.meta, state.body);
    } else if f.kind == CANCEL {
      if id in streams {
        return streams - {id}, Cancelled(id);
      }
    }
  }

  // ----- non-interference -------------------------------------------------------------------

  function Only(frames: seq<Frame>, id: uint32): seq<Frame> {
    if frames == [] then []
    else
      var last := frames[|frames| - 1];
      Only(frames[..|frames| - 1], id) + if last.id == id then [last] else []
  }

  function EffectsOf(log: seq<Effect>, id: uint32): seq<Effect> {
    if log == [] then []
    else
      var last := log[|log| - 1];
      EffectsOf(log[..|log| - 1], id) + if last.id == id then [last] else []
  }

  lemma NothingOf(parse: MetaParser, id: uint32)
    ensures Only([], id) == [] && EffectsOf([], id) == []
    ensures Table(parse, []) == map[] && Log(parse, []) == []
  {
  }

  lemma OnlySnoc(frames: seq<Frame>, f: Frame, id: uint32)
    ensures Only(frames + [f], id) == Only(frames, id) + if f.id == id then [f] else []
  {
    assert (frames + [f])[..|frames|] == frames;
  }

  /** What the server keeps for, and does about, stream `id` is a function of the frames of `id` alone. */
  lemma {:induction false} NonInterference(parse: MetaParser, frames: seq<Frame>, id: uint32)
    ensures Slot(Table(parse, frames), id) == Slot(Table(parse, Only(frames, id)), id)
    ensures EffectsOf(Log(parse, frames), id) == Log(parse, Only(frames, id))
  {
    hide Table, Log, Only, EffectsOf, React;
    NothingOf(parse, id);
    if frames != [] {
      var front, last := frames[..|frames| - 1], frames[|frames| - 1];
      NonInterference(parse, front, id);
      assert frames == front + [last];
      NonInterferenceSnoc(parse, front, Only(front, id), last, id);
      OnlySnoc(front, last, id);
    }
  }

  lemma NonInterferenceSnoc(parse: MetaParser, frames: seq<Frame>, mine: seq<Frame>, f: Frame, id: uint32)
    requires Slot(Table(parse, frames), id) == Slot(Table(parse, mine), id)
    requires EffectsOf(Log(parse, frames), id) == Log(parse, mine)
    ensures var mine' := mine + if f.id == id then [f] else [];
            && Slot(Table(parse, frames + [f]), id) == Slot(Table(parse, mine'), id)
            && EffectsOf(Log(parse, frames + [f]), id) == Log(parse, mine')
  {
    Snoc(parse, frames, f);
    EffectsOfSnoc(Log(parse, frames), React(parse, Slot(Table(parse, frames), f.id), f).1, id);
    if f.id == id {
      Snoc(parse, mine, f);
    } else {
      assert mine + [] == mine;
    }
  }

  lemma EffectsOfSnoc(log: seq<Effect>, e: Effect, id: uint32)
    ensures EffectsOf(log + [e], id) == EffectsOf(log, id) + if e.id == id then [e] else []
  {
    assert (log + [e])[..|log|] == log;
  }

  // ----- what is dispatched -----------------------------------------------------------------

  /** The bytes carried by the CHUNK frames of one stream. */
  function Payloads(frames: seq<Frame>, id: uint32): seq<byte> {
    if frames == [] then []
    else
      var last := frames[|frames| - 1];
      Payloads(frames[..|frames| - 1], id) + if last.id == id && last.kind == CHUNK then last.payload else []
  }

  /** Stream `id` was accepted by frame `start` with metadata `meta`, and none of its later frames before `end`
      ended, cancelled, overflowed or restarted it. */
  ghost predicate OpenSince(log: seq<Effect>, id: uint32, start: nat, end: nat, meta: Meta) {
    && start < end <= |log|
    && log[start] == Accepted(id, meta)
    && forall k :: start < k < end && log[k].id == id ==> !log[k].Accepted? && !Ends(log[k])
  }

  predicate Ends(e: Effect) {
    e.Dispatched? || e.Cancelled? || e.Overflowed?
  }

  lemma {:induction false} LiveStream(parse: MetaParser, frames: seq<Frame>, id: uint32) returns (start: nat)
    requires id in Table(parse, frames)
    ensures var stream := Table(parse, frames)[id];
            && OpenSince(Log(parse, frames), id, start, |frames|, stream.meta)
            && stream.body == Payloads(frames[start + 1..], id)
  {
    hide Table, Log, Payloads, OpenSince, React;
    NothingOf(parse, id);
    assert frames != [];
    var front, last := frames[..|frames| - 1], frames[|frames| - 1];
    assert front + [last] == frames;
    Snoc(parse, front, last);
    var before := Slot(Table(parse, front), id);
    var e := React(parse, Slot(Table(parse, front), last.id), last).1;
    if last.id == id {
      LiveAfter(parse, before, last);
    }
    if last.id == id && before.None? {
      start := |front|;
      NoPayloads(id);
      assert frames[start + 1..] == [];
      OpensNow(Log(parse, front), e);
    } else {
      start := LiveStream(parse, front, id);
      StaysOpen(Log(parse, front), e, id, start, before.value.meta);
      PayloadsSnoc(front[start + 1..], last, id);
      assert frames[start + 1..] == front[start + 1..] + [last];
    }
  }

  /** A stream that is live after a frame was opened by it, or was live before and got a chunk or nothing. */
  lemma LiveAfter(parse: MetaParser, slot: Option<Stream>, f: Frame)
    requires React(parse, slot, f).0.Some?
    ensures var (after, e) := React(parse, slot, f);
            match slot
            case None => e == Accepted(f.id, after.value.meta) && after.value.body == []
            case Some(stream) =>
              && !e.Accepted? && !Ends(e) && after.value.meta == stream.meta
              && after.value.body == if f.kind == CHUNK then stream.body + f.payload else stream.body
  {
  }

  lemma OpensNow(log: seq<Effect>, e: Effect)
    requires e.Accepted?
    ensures OpenSince(log + [e], e.id, |log|, |log| + 1, e.meta)
  {
  }

  lemma StaysOpen(log: seq<Effect>, e: Effect, id: uint32, start: nat, meta: Meta)
    requires OpenSince(log, id, start, |log|, meta) && (e.id == id ==> !e.Accepted? && !Ends(e))
    ensures start < |log| && OpenSince(log + [e], id, start, |log| + 1, meta)
  {
  }

  lemma NoPayloads(id: uint32)
    ensures Payloads([], id) == []
  {
  }

  lemma PayloadsSnoc(frames: seq<Frame>, f: Frame, id: uint32)
    ensures Payloads(frames + [f], id)
            == if f.id == id && f.kind == CHUNK then Payloads(frames, id) + f.payload else Payloads(frames, id)
  {
    assert (frames + [f])[..|frames|] == frames;
  }

  /** The body handed to `executeMux` is exactly what arrived for that stream between the START that opened it
      and the END that closed it, and never more than the limit. */
  lemma DispatchedBody(parse: MetaParser, frames: seq<Frame>, end: nat) returns (start: nat)
    requires end < |frames|
    requires Log(parse, frames)[end].Dispatched?
    ensures var log := Log(parse, frames); var d := log[end];
            && OpenSince(log, d.id, start, end, d.meta)
            && frames[end].kind == END && frames[end].id == d.id
            && d.body == Payloads(frames[start + 1..end], d.id)
            && |d.body| <= MAX_BODY
  {
    hide Table, Log, Payloads;
    var before, f := frames[..end], frames[end];
    LogAt(parse, frames, end);
    LogPrefix(parse, frames, end);
    start := LiveStream(parse, before, f.id);
    BodiesBounded(parse, before, f.id);
    assert before[start + 1..] == frames[start + 1..end];
  }

  lemma {:induction false} BodiesBounded(parse: MetaParser, frames: seq<Frame>, id: uint32)
    requires id in Table(parse, frames)
    ensures |Table(parse, frames)[id].body| <= MAX_BODY
  {
    var front, last := frames[..|frames| - 1], frames[|frames| - 1];
    assert Slot(Table(parse, frames), id).Some?;
    var before := Slot(Table(parse, front), id);
    if before.Some? {
      BodiesBounded(parse, front, id);
    }
  }

  // ----- the life of a stream, said on the frames -------------------------------------------

  /** No END and no CANCEL among them, and at most 32 MiB of chunks. */
  ghost predicate NothingEnds(frames: seq<Frame>, id: uint32) {
    && (forall k :: 0 <= k < |frames| && frames[k].id == id ==> frames[k].kind != 3 && frames[k].kind != 4)
    && |Payloads(frames, id)| <= 33_554_432
  }

  /** A stream is opened by a START with usable metadata while its id is not in use, and by nothing else. */
  lemma OpensExactly(parse: MetaParser, frames: seq<Frame>, n: nat)
    requires n < |frames|
    ensures var f := frames[n];
            Log(parse, frames)[n].Accepted?
            <==> f.kind == 1 && f.id !in Table(parse, frames[..n])
                 && f.payload in parse && parse[f.payload].url != "" && parse[f.payload].verb != ""
    ensures Log(parse, frames)[n].Accepted? ==> Log(parse, frames)[n] == Accepted(frames[n].id, parse[frames[n].payload])
  {
    hide Table, Log;
    LogAt(parse, frames, n);
  }

  /** Once opened it is live, with the chunks since then as its body, exactly as long as nothing ends it. */
  lemma {:induction false} LiveExactly(parse: MetaParser, frames: seq<Frame>, id: uint32, start: nat, meta: Meta)
    requires start < |frames| && Log(parse, frames)[start] == Accepted(id, meta)
    ensures OpenSince(Log(parse, frames), id, start, |frames|, meta) <==> NothingEnds(frames[start + 1..], id)
    ensures NothingEnds(frames[start + 1..], id)
            ==> Slot(Table(parse, frames), id) == Some(Stream(meta, Payloads(frames[start + 1..], id)))
    decreases |frames|
  {
    hide Table, Log, Payloads, OpenSince, React, NothingEnds;
    var front, last := frames[..|frames| - 1], frames[|frames| - 1];
    assert front + [last] == frames;
    Snoc(parse, front, last);
    if start == |front| {
      assert frames[start + 1..] == [] && frames[..start] == front;
      NoPayloads(id);
      NothingEndsNothing(id);
      LogAt(parse, frames, start);
      StartOpens(parse, Slot(Table(parse, front), id), last);
      OpensNow(Log(parse, front), Accepted(id, meta));
    } else {
      LiveExactly(parse, front, id, start, meta);
      assert frames[start + 1..] == front[start + 1..] + [last];
      PayloadsSnoc(front[start + 1..], last, id);
      NothingEndsSnoc(front[start + 1..], last, id);
      OpenSnoc(Log(parse, front), React(parse, Slot(Table(parse, front), last.id), last).1, id, start, meta);
      if last.id == id && NothingEnds(front[start + 1..], id) {
        LiveReacts(parse, Stream(meta, Payloads(front[start + 1..], id)), last);
      }
    }
  }

  lemma NothingEndsNothing(id: uint32)
    ensures NothingEnds([], id)
  {
  }

  lemma StartOpens(parse: MetaParser, slot: Option<Stream>, f: Frame)
    requires React(parse, slot, f).1.Accepted?
    ensures React(parse, slot, f).0 == Some(Stream(React(parse, slot, f).1.meta, []))
  {
  }

  lemma NothingEndsSnoc(frames: seq<Frame>, f: Frame, id: uint32)
    ensures NothingEnds(frames + [f], id)
            <==> NothingEnds(frames, id)
                 && (f.id == id ==> f.kind != 3 && f.kind != 4
                                    && (f.kind == 2 ==> |Payloads(frames, id)| + |f.payload| <= 33_554_432))
  {
    hide Payloads;
    PayloadsSnoc(frames, f, id);
    var all := frames + [f];
    if forall k :: 0 <= k < |all| && all[k].id == id ==> all[k].kind != 3 && all[k].kind != 4 {
      assert all[|frames|] == f;
      forall k | 0 <= k < |frames| && frames[k].id == id
        ensures frames[k].kind != 3 && frames[k].kind != 4
      {
        assert all[k] == frames[k];
      }
    }
  }

  lemma OpenSnoc(log: seq<Effect>, e: Effect, id: uint32, start: nat, meta: Meta)
    requires start < |log| && log[start] == Accepted(id, meta)
    ensures OpenSince(log + [e], id, start, |log| + 1, meta)
            <==> OpenSince(log, id, start, |log|, meta) && (e.id == id ==> !e.Accepted? && !Ends(e))
  {
    var all := log + [e];
    if OpenSince(all, id, start, |all|, meta) {
      assert all[|log|] == e;
      forall k | start < k < |log| && log[k].id == id
        ensures !log[k].Accepted? && !Ends(log[k])
      {
        assert all[k] == log[k];
      }
    }
  }

  /** What a frame does to a live stream: another START is refused, END dispatches it, CANCEL ends it, a chunk is appended
      unless it would exceed 32 MiB and then ends it, and no other kind matters. */
  lemma LiveReacts(parse: MetaParser, stream: Stream, f: Frame)
    ensures var (slot, e) := React(parse, Some(stream), f);
            if f.kind == 1 then slot == Some(stream) && e == Refused(f.id, DUPLICATE_STREAM)
            else if f.kind == 2 then
              if |stream.body| + |f.payload| <= 33_554_432 then
                slot == Some(stream.(body := stream.body + f.payload)) && e == Appended(f.id)
              else slot == None && e == Overflowed(f.id)
            else if f.kind == 3 then slot == None && e == Dispatched(f.id, stream.meta, stream.body)
            else if f.kind == 4 then slot == None && e == Cancelled(f.id)
            else slot == Some(stream) && e == Ignored(f.id)
  {
  }

  /** So what the loop does with a further frame of a stream that nothing has ended. */
  lemma NextEffect(parse: MetaParser, frames: seq<Frame>, id: uint32, start: nat, meta: Meta, n: nat)
    requires start < n < |frames| && frames[n].id == id && Log(parse, frames)[start] == Accepted(id, meta)
    requires NothingEnds(frames[start + 1..n], id)
    ensures var body := Payloads(frames[start + 1..n], id); var f := frames[n];
            Log(parse, frames)[n]
            == if f.kind == 1 then Refused(id, "error.proxy.mux.duplicate_stream")
               else if f.kind == 2 then if |body| + |f.payload| <= 33_554_432 then Appended(id) else Overflowed(id)
               else if f.kind == 3 then Dispatched(id, meta, body)
               else if f.kind == 4 then Cancelled(id)
               else Ignored(id)
  {
    hide Table, Log, Payloads, OpenSince, React, NothingEnds;
    var front := frames[..n];
    LogPrefix(parse, frames, n);
    assert Log(parse, front)[start] == Accepted(id, meta);
    assert front[start + 1..] == frames[start + 1..n];
    LiveExactly(parse, front, id, start, meta);
    LogAt(parse, frames, n);
    LiveReacts(parse, Stream(meta, Payloads(frames[start + 1..n], id)), frames[n]);
  }

  // ----- accounting -------------------------------------------------------------------------

  datatype Tag = Opening | Dispatching | Cancelling | Overflowing | Other

  function TagOf(e: Effect): Tag {
    match e
    case Accepted(_, _) => Opening
    case Dispatched(_, _, _) => Dispatching
    case Cancelled(_) => Cancelling
    case Overflowed(_) => Overflowing
    case _ => Other
  }

  function Tally(log: seq<Effect>, tag: Tag): nat {
    if log == [] then 0
    else Tally(log[..|log| - 1], tag) + if TagOf(log[|log| - 1]) == tag then 1 else 0
  }

  /** Openings not yet ended. */
  function Balance(log: seq<Effect>): int {
    Tally(log, Opening) - Tally(log, Dispatching) - Tally(log, Cancelling) - Tally(log, Overflowing)
  }

  lemma NoTally()
    ensures forall tag :: Tally([], tag) == 0
  {
  }

  lemma BalanceSnoc(log: seq<Effect>, e: Effect)
    ensures Balance(log + [e]) == Balance(log) + if e.Accepted? then 1 else if Ends(e) then -1 else 0
  {
    assert (log + [e])[..|log|] == log;
  }

  /** A frame opens a stream, ends one, or leaves the set of live streams alone, and its effect says which. */
  lemma ReactBalance(parse: MetaParser, slot: Option<Stream>, f: Frame)
    ensures var (slot', e) := React(parse, slot, f);
            (if slot'.Some? then 1 else 0)
            == (if slot.Some? then 1 else 0) + if e.Accepted? then 1 else if Ends(e) then -1 else 0
  {
  }

  lemma PutSize(streams: Streams, id: uint32, slot: Option<Stream>)
    ensures |Put(streams, id, slot)|
            == |streams| - (if id in streams then 1 else 0) + if slot.Some? then 1 else 0
  {
    assert Put(streams, id, slot).Keys == streams.Keys - {id} + if slot.Some? then {id} else {};
  }

  /** Every accepted START is live, or was dispatched, cancelled or overflowed: exactly one of the four. */
  lemma {:induction false} Accounting(parse: MetaParser, frames: seq<Frame>)
    ensures var log := Log(parse, frames);
            && Tally(log, Opening)
               == |Table(parse, frames)|
                  + Tally(log, Dispatching) + Tally(log, Cancelling) + Tally(log, Overflowing)
  {
    if frames != [] {
      var front, last := frames[..|frames| - 1], frames[|frames| - 1];
      Accounting(parse, front);
      var slot := Slot(Table(parse, front), last.id);
      var (slot', effect) := React(parse, slot, last);
      ReactBalance(parse, slot, last);
      PutSize(Table(parse, front), last.id, slot');
      BalanceSnoc(Log(parse, front), effect);
    }
  }

  /** The same ledger kept for one stream: on every prefix of every run its openings exceed its endings by one
      while it is live and equal them otherwise, so an overflowed or cancelled stream is never dispatched. */
  lemma {:induction false} StreamAccounting(parse: MetaParser, frames: seq<Frame>, id: uint32)
    ensures Balance(EffectsOf(Log(parse, frames), id)) == if id in Table(parse, frames) then 1 else 0
  {
    hide Table, Log, EffectsOf, React, Tally;
    if frames == [] {
      NothingOf(parse, id);
      assert Balance([]) == 0 by {
        NoTally();
      }
    } else {
      var front, last := frames[..|frames| - 1], frames[|frames| - 1];
      StreamAccounting(parse, front, id);
      StreamAccountingSnoc(parse, front, last, id);
      assert frames == front + [last];
    }
  }

  lemma StreamAccountingSnoc(parse: MetaParser, frames: seq<Frame>, f: Frame, id: uint32)
    requires Balance(EffectsOf(Log(parse, frames), id)) == if id in Table(parse, frames) then 1 else 0
    ensures Balance(EffectsOf(Log(parse, frames + [f]), id)) == if id in Table(parse, frames + [f]) then 1 else 0
  {
    var slot := Slot(Table(parse, frames), f.id);
    var (slot', effect) := React(parse, slot, f);
    Snoc(parse, frames, f);
    EffectsOfSnoc(Log(parse, frames), effect, id);
    assert Slot(Table(parse, frames + [f]), id) == if f.id == id then slot' else Slot(Table(parse, frames), id);
    if f.id == id {
      ReactBalance(parse, slot, f);
      BalanceSnoc(EffectsOf(Log(parse, frames), id), effect);
    } else {
      assert EffectsOf(Log(parse, frames + [f]), id) == EffectsOf(Log(parse, frames), id);
    }
  }
}

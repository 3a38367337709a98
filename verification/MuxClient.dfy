/** The page's half of the request multiplexer: the pending table of `muxFetch`, `handleFrame`, and the id allocator. */
module MuxClient {
  import opened Wrappers
  import opened Frames
  import Headers

  /** Where a fetch stands for the page. `Aborted` is a body stream the page cancelled. */
  datatype Phase = Waiting | Streaming | Bodiless | Aborted | Closed | Errored | Rejected

  /** The stream the handler's `controller` feeds: none yet, the one the page reads, or one the page never got hold of. */
  datatype Control = Unset | Own | Hidden

  /** What the page can see of one fetch; it is in the pending table exactly while `registered`. */
  datatype View = View(phase: Phase, bytes: seq<byte>, control: Control, registered: bool)

  const FRESH := View(Waiting, [], Unset, true)

  /** What a RESPONSE frame says of the response. */
  datatype Init = Init(status: nat, statusText: string, headers: map<string, string>)

  /** Stands for `JSON.parse` on RESPONSE payloads; a missing payload makes the handler throw. */
  type InitParser = map<seq<byte>, Init>

  predicate NullBody(status: nat) {
    status == 101 || status == 204 || status == 205 || status == 304
  }

  /** A string that converts to bytes. */
  predicate ByteString(s: string) {
    forall c :: c in s ==> c as int <= 0xFF
  }

  predicate ReasonPhrase(s: string) {
    forall c :: c in s ==> c == '\t' || 0x20 <= c as int <= 0x7E || 0x80 <= c as int <= 0xFF
  }

  predicate HeaderName(s: string) {
    s != "" && forall c :: c in s ==> Headers.IsTokenChar(c)
  }

  predicate HttpSpace(s: string) {
    forall c :: c in s ==> c == ' ' || c == '\t' || c == '\n' || c == '\r'
  }

  /** Bytes without NUL, and without CR or LF once white space at either end is gone. */
  predicate HeaderValue(s: string) {
    && ByteString(s)
    && forall k :: 0 <= k < |s| ==>
         s[k] != '\0' && (s[k] == '\r' || s[k] == '\n' ==> HttpSpace(s[..k]) || HttpSpace(s[k + 1..]))
  }

  /** What `new Response` takes; for anything else it throws, after the body stream has been made. The status is converted
      to 16 bits first, and one that has no body goes with no stream. */
  predicate Constructible(init: Init) {
    var status := init.status % 0x1_0000;
    && 200 <= status <= 599 && (NullBody(status) ==> NullBody(init.status))
    && ReasonPhrase(init.statusText)
    && forall name :: name in init.headers ==> HeaderName(name) && HeaderValue(init.headers[name])
  }

  /** A RESPONSE frame: a body stream is made unless the status has none, and the promise, if still open, is resolved. A
      second one leaves the page with its first response but takes the controller away from it. */
  function Respond(v: View, init: Init): View {
    var resolves := v.phase == Waiting && Constructible(init);
    v.(phase := if !resolves then v.phase else if NullBody(init.status) then Bodiless else Streaming,
       control := if NullBody(init.status) then v.control else if resolves then Own else Hidden)
  }

  /** The effect of one frame on the fetch it is addressed to. */
  function React(inits: InitParser, v: View, f: Frame): View {
    if !v.registered then v
    else if f.kind == RESPONSE then
      if f.payload !in inits then v else Respond(v, inits[f.payload])
    else if f.kind == RESPONSE_CHUNK then
      if v.control == Own && v.phase == Streaming then v.(bytes := v.bytes + f.payload) else v
    else if f.kind == RESPONSE_END then
      if v.control == Own && v.phase == Aborted then v   // closing a cancelled controller throws before the entry is deleted
      else v.(phase := if v.control == Own && v.phase == Streaming then Closed else v.phase, registered := false)
    else if f.kind == RESPONSE_ERROR then Fail(v)
    else v
  }

  /** An error goes to the controller if there is one, and to the promise otherwise. */
  function Fail(v: View): View {
    v.(phase := if v.control == Own && v.phase == Streaming then Errored
                else if v.control == Unset && v.phase == Waiting then Rejected
                else v.phase,
       registered := false)
  }

  /** What a fetch shows after a history of frames addressed to it. */
  function Fold(inits: InitParser, frames: seq<Frame>): View {
    if frames == [] then FRESH
    else React(inits, Fold(inits, frames[..|frames| - 1]), frames[|frames| - 1])
  }

  lemma FoldSnoc(inits: InitParser, frames: seq<Frame>, f: Frame)
    ensures Fold(inits, frames + [f]) == React(inits, Fold(inits, frames), f)
  {
    assert (frames + [f])[..|frames|] == frames;
  }

  lemma {:induction false} FoldGrows(inits: InitParser, frames: seq<Frame>, n: nat)
    requires n <= |frames|
    ensures Fold(inits, frames[..n]).bytes <= Fold(inits, frames).bytes
  {
    if n == |frames| {
      assert frames[..n] == frames;
    } else {
      var front := frames[..|frames| - 1];
      FoldGrows(inits, front, n);
      assert front[..n] == frames[..n];
    }
  }

  /** A body stream exists only once a RESPONSE frame has been handled. */
  lemma {:induction false} StreamingMeansResponse(inits: InitParser, frames: seq<Frame>) returns (k: nat)
    requires Fold(inits, frames).phase == Streaming
    ensures k < |frames| && frames[k].kind == RESPONSE
  {
    var front, last := frames[..|frames| - 1], frames[|frames| - 1];
    if Fold(inits, front).phase == Streaming {
      k := StreamingMeansResponse(inits, front);
    } else {
      k := |front|;
    }
  }

  type Table = map<nat, View>

  function Deliver(inits: InitParser, views: Table, data: seq<byte>): Table {
    match Decode(data)
    case None => views
    case Some(f) => if f.id in views then views[f.id := React(inits, views[f.id], f)] else views
  }

  // ----- stream ids -------------------------------------------------------------------------

  /** `nextID++ >>> 0 || nextID++`: the id and the next counter value. */
  function Allocate(next: nat): (nat, nat) {
    if next % 0x1_0000_0000 != 0 then (next % 0x1_0000_0000, next + 1) else (next + 1, next + 2)
  }

  /** The id as `setUint32` puts it on the wire. */
  function OnWire(id: nat): uint32 {
    id % 0x1_0000_0000
  }

  /** The counter before the n-th allocation, counting from one. */
  function Counter(n: nat): nat
    requires n > 0
  {
    if n == 1 then 1 else Allocate(Counter(n - 1)).1
  }

  function NthId(n: nat): nat
    requires n > 0
  {
    Allocate(Counter(n)).0
  }

  lemma Period(laps: nat, rest: nat)
    requires rest < 0xFFFF_FFFF
    ensures (laps * 0xFFFF_FFFF + rest) / 0xFFFF_FFFF == laps && (laps * 0xFFFF_FFFF + rest) % 0xFFFF_FFFF == rest
  {
  }

  lemma Modulus(laps: nat, rest: nat)
    requires rest < 0x1_0000_0000
    ensures (laps * 0x1_0000_0000 + rest) % 0x1_0000_0000 == rest
  {
  }

  /** After each lap of 2^32 - 1 ids the counter has skipped one value. */
  lemma {:induction false} CounterClosedForm(n: nat)
    requires n > 0
    ensures Counter(n) == if n == 1 then 1 else n + (n - 2) / 0xFFFF_FFFF
  {
    if n > 2 {
      CounterClosedForm(n - 1);
      var laps, rest := Split(n - 1);
      if rest + 1 < 0xFFFF_FFFF {
        Period(laps, rest + 1);
      } else {
        Period(laps + 1, 0);
      }
    }
  }

  /** Where the n-th allocation falls: how many laps are done and how far into the next one it is. */
  lemma Split(n: nat) returns (laps: nat, rest: nat)
    requires n > 1 && Counter(n) == n + (n - 2) / 0xFFFF_FFFF
    ensures n - 2 == laps * 0xFFFF_FFFF + rest && rest < 0xFFFF_FFFF
    ensures Counter(n) == laps * 0x1_0000_0000 + rest + 2
    ensures Counter(n) % 0x1_0000_0000 == if rest + 2 == 0x1_0000_0000 then 0 else rest + 2
  {
    hide Counter;
    laps, rest := (n - 2) / 0xFFFF_FFFF, (n - 2) % 0xFFFF_FFFF;
    if rest + 2 == 0x1_0000_0000 {
      Modulus(laps + 1, 0);
    } else {
      Modulus(laps, rest + 2);
    }
  }

  /** The pending-table key equals the id on the wire for every allocation but those that follow a whole number of
      laps of 2^32 - 1 ids, where the value is used without being truncated. */
  lemma IdMatchesWireExactly(n: nat)
    requires n > 0
    ensures NthId(n) == OnWire(NthId(n)) <==> n == 1 || (n - 1) % 0xFFFF_FFFF != 0
  {
    hide Counter, Allocate, OnWire;
    CounterClosedForm(n);
    if n == 1 {
      FirstId();
    } else {
      var laps, rest := Split(n);
      Truncated(Counter(n), laps, rest);
      LapEnd(n - 1, laps, rest);
    }
  }

  lemma FirstId()
    ensures NthId(1) == OnWire(NthId(1))
  {
  }

  lemma LapEnd(m: nat, laps: nat, rest: nat)
    requires m == laps * 0xFFFF_FFFF + rest + 1 && rest < 0xFFFF_FFFF
    ensures m % 0xFFFF_FFFF != 0 <==> rest + 1 < 0xFFFF_FFFF
  {
    if rest + 1 < 0xFFFF_FFFF {
      Period(laps, rest + 1);
    } else {
      Period(laps + 1, 0);
    }
  }

  /** Only where the counter is a multiple of 2^32 is the id taken without truncation. */
  lemma Truncated(next: nat, laps: nat, rest: nat)
    requires next == laps * 0x1_0000_0000 + rest + 2 && rest < 0xFFFF_FFFF
    requires next % 0x1_0000_0000 == if rest + 2 == 0x1_0000_0000 then 0 else rest + 2
    ensures var id := Allocate(next).0; id == OnWire(id) <==> rest + 1 < 0xFFFF_FFFF
  {
    if rest + 2 == 0x1_0000_0000 {
      Modulus(laps + 1, 1);
      assert Allocate(next).0 == (laps + 1) * 0x1_0000_0000 + 1;
    } else {
      BelowDivisor(rest + 2, 0x1_0000_0000);
    }
  }

  lemma BelowDivisor(a: nat, b: nat)
    requires a < b
    ensures a / b == 0 && a % b == a
  {
  }

  /** The first 2^32 - 1 fetches of a page get the ids 1, 2, 3, ... and so never share one. */
  lemma FirstIds(n: nat)
    requires 0 < n <= 0xFFFF_FFFF
    ensures NthId(n) == n
  {
    CounterClosedForm(n);
    hide Counter;
    if n > 1 {
      BelowDivisor(n - 2, 0xFFFF_FFFF);
    }
    assert Counter(n) == n;
    BelowDivisor(n, 0x1_0000_0000);
  }

  /** The next one is sent as stream 1 but waits under a key no reply can carry. */
  lemma FirstMismatch(n: nat, inits: InitParser, views: Table, data: seq<byte>)
    requires n == 0xFFFF_FFFF + 1 && NthId(n) in views
    ensures OnWire(NthId(n)) == 1
    ensures NthId(n) in Deliver(inits, views, data) && Deliver(inits, views, data)[NthId(n)] == views[NthId(n)]
  {
    CounterClosedForm(n);
    hide Counter, React, Decode;
    BelowDivisor(n - 2, 0xFFFF_FFFF);
    assert n % 0x1_0000_0000 == 0;
    assert NthId(n) == 0x1_0000_0000 + 1;
  }

  class PageMux {
    var nextID: nat
    var views: Table

    constructor ()
      ensures nextID == 1 && views == map[]
    {
      nextID, views := 1, map[];
    }

    /** Registers a fetch before its START frame is sent. */
    method Register() returns (id: nat)
      modifies this
      ensures (id, nextID) == Allocate(old(nextID))
      ensures views == old(views)[id := FRESH]
    {
      id := nextID % 0x1_0000_0000;
      nextID := nextID + 1;
      if id == 0 {
        id := nextID;
        nextID := nextID + 1;
      }
      views := views[id := FRESH];
    }

    method HandleFrame(inits: InitParser, data: seq<byte>)
      modifies this`views
      ensures views == Deliver(inits, old(views), data)
    {
      if |data| < HEADER_LENGTH || data[0] != VERSION {
        return;
      }
      var kind, id := data[1], ReadBigEndian(data[2..6]);
      if id !in views || !views[id].registered {
        assert id in views ==> views[id := views[id]] == views;
        return;
      }
      var request, payload := views[id], data[6..];
      if kind == RESPONSE {
        if payload in inits {
          var init := inits[payload];
          if !NullBody(init.status) {
            request := request.(control := Hidden);
          }
          if request.phase == Waiting && Constructible(init) {
            request := if NullBody(init.status) then request.(phase := Bodiless) else request.(phase := Streaming, control := Own);
          }
        }
      } else if kind == RESPONSE_CHUNK {
        if request.control == Own && request.phase == Streaming {
          request := request.(bytes := request.bytes + payload);
        }
      } else if kind == RESPONSE_END {
        if !(request.control == Own && request.phase == Aborted) {
          var phase := if request.control == Own && request.phase == Streaming then Closed else request.phase;
          request := request.(phase := phase, registered := false);
        }
      } else if kind == RESPONSE_ERROR {
        request := Fail(request);
      }
      views := views[id := request];
    }

    /** `onclose`: afterwards nothing is pending. A fetch still waiting for its response is rejected, a body still being
        read fails after the bytes it has, and everything else stays as the page saw it. */
    method Disconnect()
      modifies this`views
      ensures views.Keys == old(views).Keys
      ensures forall id :: id in views ==>
                var was := old(views)[id];
                && !views[id].registered && views[id].bytes == was.bytes && views[id].control == was.control
                && (was.registered && was.phase == Waiting && was.control == Unset ==> views[id].phase == Rejected)
                && (was.registered && was.phase == Streaming && was.control == Own ==> views[id].phase == Errored)
                && (views[id].phase == was.phase
                    || (was.registered && (was.phase == Waiting || was.phase == Streaming) && was.control != Hidden))
    {
      var todo := views.Keys;
      while todo != {}
        invariant todo <= views.Keys == old(views).Keys
        invariant forall id :: id in todo ==> views[id] == old(views)[id]
        invariant forall id :: id in views && id !in todo ==>
                    views[id] == if old(views)[id].registered then Fail(old(views)[id]) else old(views)[id]
      {
        var id :| id in todo;
        if views[id].registered {
          views := views[id := Fail(views[id])];
        }
        todo := todo - {id};
      }
    }
  }
}

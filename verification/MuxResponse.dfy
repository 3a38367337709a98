/** `executeMux`: what one dispatched request writes back to the page. */
module MuxResponse {
  import opened Frames

  const BUFFER := 32 * 1024
  const UNSUPPORTED_METHOD := "error.proxy.mux.unsupported_method"
  const TARGET_DENIED := "error.proxy.target_denied"
  const UPSTREAM_ERROR := "error.proxy.upstream_error"
  const RESPONSE_INTERRUPTED := "error.proxy.mux.response_interrupted"

  /** How the upstream body stopped; `Waiting` is a body that has not ended yet. */
  datatype Ending = Finished | Interrupted | Waiting

  datatype Reply =
    | Denied(message: string)
    | Answered(metadata: seq<byte>, chunks: seq<seq<byte>>, ending: Ending)

  /** One `Read` of the upstream body: the bytes it returned and the error beside them. */
  datatype ReadResult = ReadResult(data: seq<byte>, error: ReadError)
  datatype ReadError = Nil | Eof | Broken

  function ChunkFrames(id: uint32, chunks: seq<seq<byte>>): seq<Frame> {
    seq(|chunks|, i requires 0 <= i < |chunks| => Frame(RESPONSE_CHUNK, id, chunks[i]))
  }

  function Final(id: uint32, ending: Ending): seq<Frame> {
    match ending
    case Finished => [Frame(RESPONSE_END, id, [])]
    case Interrupted => [ErrorFrame(id, RESPONSE_INTERRUPTED)]
    case Waiting => []
  }

  /** The body part of the response grammar. */
  function Tail(id: uint32, chunks: seq<seq<byte>>, ending: Ending): seq<Frame> {
    ChunkFrames(id, chunks) + Final(id, ending)
  }

  /** The response grammar: Error | Response Chunk* (End | Error). */
  function Word(id: uint32, reply: Reply): seq<Frame> {
    match reply
    case Denied(message) => [ErrorFrame(id, message)]
    case Answered(metadata, chunks, ending) =>
      [Frame(RESPONSE, id, metadata)] + Tail(id, chunks, ending)
  }

  /** How many reads are made: up to and including the first that carries an error. */
  function Consumed(results: seq<ReadResult>): (n: nat)
    ensures n <= |results|
    ensures forall k :: 0 <= k < n - 1 ==> results[k].error == Nil
    ensures n < |results| ==> 0 < n && results[n - 1].error != Nil
  {
    if results == [] then 0
    else if results[0].error != Nil then 1
    else 1 + Consumed(results[1..])
  }

  function NonEmpty(results: seq<ReadResult>): seq<seq<byte>> {
    if results == [] then []
    else
      var last := results[|results| - 1];
      NonEmpty(results[..|results| - 1]) + if last.data != [] then [last.data] else []
  }

  /** Everything the reads delivered. */
  function Bytes(results: seq<ReadResult>): seq<byte> {
    if results == [] then [] else Bytes(results[..|results| - 1]) + results[|results| - 1].data
  }

  function Chunks(results: seq<ReadResult>): seq<seq<byte>> {
    NonEmpty(results[..Consumed(results)])
  }

  function EndingOf(results: seq<ReadResult>): Ending {
    var n := Consumed(results);
    if n == 0 || results[n - 1].error == Nil then Waiting
    else if results[n - 1].error == Eof then Finished
    else Interrupted
  }

  /** Skipping empty reads loses nothing: the chunks are, end to end, the bytes read. */
  lemma {:induction false} ChunksAreTheBytes(results: seq<ReadResult>)
    ensures Concat(NonEmpty(results)) == Bytes(results)
  {
    if results != [] {
      var front, last := results[..|results| - 1], results[|results| - 1];
      ChunksAreTheBytes(front);
      if last.data == [] {
        assert Bytes(front) + last.data == Bytes(front);
        assert NonEmpty(front) + [] == NonEmpty(front);
      } else {
        ConcatSnoc(NonEmpty(front), last.data);
      }
    }
  }

  lemma {:induction false} ChunksFitTheBuffer(results: seq<ReadResult>, chunk: seq<byte>)
    requires forall k :: 0 <= k < |results| ==> |results[k].data| <= BUFFER
    requires chunk in NonEmpty(results)
    ensures 0 < |chunk| <= BUFFER
  {
    var front := results[..|results| - 1];
    if chunk in NonEmpty(front) {
      ChunksFitTheBuffer(front, chunk);
    }
  }

  lemma {:induction false} NonEmptyPrefix(results: seq<ReadResult>, n: nat)
    requires n <= |results|
    ensures NonEmpty(results[..n]) <= NonEmpty(results)
  {
    if n < |results| {
      NonEmptyPrefix(results[..|results| - 1], n);
      assert results[..|results| - 1][..n] == results[..n];
    } else {
      assert results[..n] == results;
    }
  }

  datatype RoundTrip = Failed | Received(metadata: seq<byte>, results: seq<ReadResult>)

  /** The decision `executeMux` takes before and after the upstream round trip. */
  function ReplyTo(verb: string, allowed: bool, trip: RoundTrip): Reply {
    if verb == "CONNECT" || verb == "TRACE" then Denied(UNSUPPORTED_METHOD)
    else if !allowed then Denied(TARGET_DENIED)
    else if trip.Failed? then Denied(UPSTREAM_ERROR)
    else Answered(trip.metadata, Chunks(trip.results), EndingOf(trip.results))
  }

  /** Said on the frames, without the reply: a request that is not answered by an upstream gets one error that names the
      reason. Any other gets one RESPONSE with the metadata, then non-empty chunks that are, end to end, the bytes read up
      to the first read error, and after that error an end if it was the end of the body and an error if it was not. */
  ghost predicate Reports(frames: seq<Frame>, id: uint32, verb: string, allowed: bool, trip: RoundTrip) {
    if verb == "CONNECT" || verb == "TRACE" then frames == [Frame(14, id, Ascii("error.proxy.mux.unsupported_method"))]
    else if !allowed then frames == [Frame(14, id, Ascii("error.proxy.target_denied"))]
    else if trip == Failed then frames == [Frame(14, id, Ascii("error.proxy.upstream_error"))]
    else exists n, k :: Relays(frames, id, trip.metadata, trip.results, n, k)
  }

  /** The first `n` reads are those up to the first error, and they went out as the `k` frames after the first. */
  ghost predicate Relays(frames: seq<Frame>, id: uint32, metadata: seq<byte>, results: seq<ReadResult>, n: nat, k: nat) {
    && n <= |results| && (forall i :: 0 <= i < n - 1 ==> results[i].error == Nil)
    && k < |frames| && frames[0] == Frame(11, id, metadata)
    && (forall i :: 1 <= i <= k ==> frames[i] == Frame(12, id, frames[i].payload) && frames[i].payload != [])
    && Concat(seq(k, i requires 0 <= i < k => frames[i + 1].payload)) == Bytes(results[..n])
    && if n == 0 || results[n - 1].error == Nil then n == |results| && frames[k + 1..] == []
       else if results[n - 1].error == Eof then frames[k + 1..] == [Frame(13, id, [])]
       else frames[k + 1..] == [Frame(14, id, Ascii("error.proxy.mux.response_interrupted"))]
  }

  lemma ReplyReports(id: uint32, verb: string, allowed: bool, trip: RoundTrip)
    ensures Reports(Word(id, ReplyTo(verb, allowed, trip)), id, verb, allowed, trip)
  {
    hide Ascii, Relays;
    if verb != "CONNECT" && verb != "TRACE" && allowed && trip.Received? {
      WordRelays(id, trip.metadata, trip.results);
    }
  }

  lemma WordRelays(id: uint32, metadata: seq<byte>, results: seq<ReadResult>)
    ensures var chunks := Chunks(results);
            Relays(Word(id, Answered(metadata, chunks, EndingOf(results))), id, metadata, results, Consumed(results), |chunks|)
  {
    hide Ascii, Consumed, NonEmpty, Concat, Bytes, EndingOf, Word, Final;
    var n, chunks := Consumed(results), Chunks(results);
    var word := Word(id, Answered(metadata, chunks, EndingOf(results)));
    ChunksAreTheBytes(results[..n]);
    WordLayout(id, metadata, chunks, EndingOf(results));
    forall i | 1 <= i <= |chunks|
      ensures word[i] == Frame(12, id, word[i].payload) && word[i].payload != []
    {
      NonEmptyChunks(results[..n], i - 1);
      assert word[i - 1 + 1] == Frame(12, id, chunks[i - 1]);
    }
    assert seq(|chunks|, i requires 0 <= i < |chunks| => word[i + 1].payload) == chunks;
    Closing(id, results);
  }

  lemma WordLayout(id: uint32, metadata: seq<byte>, chunks: seq<seq<byte>>, ending: Ending)
    ensures var word := Word(id, Answered(metadata, chunks, ending));
            && |word| > |chunks| && word[0] == Frame(11, id, metadata)
            && (forall i :: 0 <= i < |chunks| ==> word[i + 1] == Frame(12, id, chunks[i]))
            && word[|chunks| + 1..] == Final(id, ending)
  {
    hide Final;
    var body, word := ChunkFrames(id, chunks), Word(id, Answered(metadata, chunks, ending));
    assert word == [Frame(RESPONSE, id, metadata)] + body + Final(id, ending);
    forall i | 0 <= i < |chunks|
      ensures word[i + 1] == Frame(12, id, chunks[i])
    {
      assert word[i + 1] == body[i];
    }
  }

  /** What closes the response, by the last read that is made. */
  lemma Closing(id: uint32, results: seq<ReadResult>)
    ensures var n := Consumed(results);
            if n == 0 || results[n - 1].error == Nil then n == |results| && Final(id, EndingOf(results)) == []
            else if results[n - 1].error == Eof then Final(id, EndingOf(results)) == [Frame(13, id, [])]
            else Final(id, EndingOf(results)) == [Frame(14, id, Ascii("error.proxy.mux.response_interrupted"))]
  {
    hide Ascii, Final, Consumed, EndingOf;
    EndingIs(results);
    ClosingFrame(id, EndingOf(results));
  }

  lemma EndingIs(results: seq<ReadResult>)
    ensures var n := Consumed(results);
            if n == 0 || results[n - 1].error == Nil then n == |results| && EndingOf(results) == Waiting
            else EndingOf(results) == if results[n - 1].error == Eof then Finished else Interrupted
  {
    hide Consumed;
  }

  lemma ClosingFrame(id: uint32, ending: Ending)
    ensures Final(id, ending) == match ending
                                 case Waiting => []
                                 case Finished => [Frame(13, id, [])]
                                 case Interrupted => [Frame(14, id, Ascii("error.proxy.mux.response_interrupted"))]
  {
    hide Ascii;
  }

  lemma {:induction false} NonEmptyChunks(results: seq<ReadResult>, i: nat)
    requires i < |NonEmpty(results)|
    ensures NonEmpty(results)[i] != []
  {
    var front := results[..|results| - 1];
    if i < |NonEmpty(front)| {
      NonEmptyChunks(front, i);
    }
  }

  /** What reaches the connection when it fails after `capacity` more sends. */
  function Sent(word: seq<Frame>, capacity: nat): seq<Frame> {
    word[..if capacity < |word| then capacity else |word|]
  }

  /** Writes the word, or the part of it the connection still carries. */
  method ExecuteMux(writer: MuxWriter, id: uint32, verb: string, allowed: bool, trip: RoundTrip, capacity: nat)
    requires writer.Valid()
    modifies writer
    ensures writer.Valid()
    ensures writer.frames == old(writer.frames) + Sent(Word(id, ReplyTo(verb, allowed, trip)), capacity)
    ensures Reports(Word(id, ReplyTo(verb, allowed, trip)), id, verb, allowed, trip)
  {
    hide Ascii, Word, Tail, Chunks, EndingOf, Sent, ErrorFrame, Reports;
    ghost var reply := ReplyTo(verb, allowed, trip);
    ReplyReports(id, verb, allowed, trip);
    WordOf(id, reply, capacity);
    if verb == "CONNECT" || verb == "TRACE" {
      MuxError(writer, id, UNSUPPORTED_METHOD, capacity);
      return;
    }
    if !allowed {
      MuxError(writer, id, TARGET_DENIED, capacity);
      return;
    }
    if trip.Failed? {
      MuxError(writer, id, UPSTREAM_ERROR, capacity);
      return;
    }
    var ok := writer.Send(RESPONSE, id, trip.metadata, capacity > 0);
    if !ok {
      return;
    }
    StreamBody(writer, id, trip.results, capacity - 1);
  }

  /** A reply taken apart: a single error, or the RESPONSE frame and the body. */
  lemma WordOf(id: uint32, reply: Reply, capacity: nat)
    ensures match reply
            case Denied(message) => Word(id, reply) == [ErrorFrame(id, message)]
            case Answered(metadata, chunks, ending) =>
              Sent(Word(id, reply), capacity)
              == if capacity == 0 then []
                 else [Frame(RESPONSE, id, metadata)] + Sent(Tail(id, chunks, ending), capacity - 1)
  {
    hide Ascii, Tail, ErrorFrame;
  }

  method MuxError(writer: MuxWriter, id: uint32, message: string, capacity: nat)
    requires writer.Valid()
    modifies writer
    ensures writer.Valid()
    ensures writer.frames == old(writer.frames) + Sent([ErrorFrame(id, message)], capacity)
  {
    var _ := writer.Send(RESPONSE_ERROR, id, Ascii(message), capacity > 0);
  }

  /** The body of the response: the copy loop, then the frame that closes it. */
  method StreamBody(writer: MuxWriter, id: uint32, results: seq<ReadResult>, capacity: nat)
    requires writer.Valid()
    modifies writer
    ensures writer.Valid()
    ensures writer.frames == old(writer.frames) + Sent(Tail(id, Chunks(results), EndingOf(results)), capacity)
  {
    var sent, error, ok := CopyLoop(writer, id, results, capacity);
    if ok {
      Finish(writer, id, error, capacity - sent);
    }
  }

  /** One frame for each non-empty read, until the body ends or a send fails. */
  method CopyLoop(writer: MuxWriter, id: uint32, results: seq<ReadResult>, capacity: nat)
    returns (sent: nat, error: ReadError, ok: bool)
    requires writer.Valid()
    modifies writer
    ensures writer.Valid() && sent <= capacity
    ensures !ok ==> sent == capacity < |Chunks(results)|
    ensures ok ==> sent == |Chunks(results)| && EndingOf(results) == EndedBy(error)
    ensures writer.frames == old(writer.frames) + ChunkFrames(id, Chunks(results))[..sent]
  {
    assert NonEmpty(results[..0]) == [];
    hide NonEmpty, Consumed, EndingOf, EndedBy, Chunks, ChunkFrames;
    ghost var before, chunks := writer.frames, ChunkFrames(id, Chunks(results));
    EachChunk(id, Chunks(results));
    var n := 0;
    sent, error, ok := 0, Nil, true;
    while n < |results| && error == Nil
      invariant n <= Consumed(results) && sent == |NonEmpty(results[..n])| <= |chunks| && sent <= capacity
      invariant error == if n == 0 then Nil else results[n - 1].error
      invariant writer.Valid() && writer.frames == before + chunks[..sent]
    {
      var result := results[n];
      CopyStep(results, n);
      if result.data != [] {
        Extend(before, chunks, sent);
        ok := writer.Send(RESPONSE_CHUNK, id, result.data, sent < capacity);
        if !ok {
          return;
        }
        sent := sent + 1;
      }
      n, error := n + 1, result.error;
    }
    Stopped(results, n, error);
  }

  lemma EachChunk(id: uint32, chunks: seq<seq<byte>>)
    ensures |ChunkFrames(id, chunks)| == |chunks|
    ensures forall k :: 0 <= k < |chunks| ==> ChunkFrames(id, chunks)[k] == Frame(RESPONSE_CHUNK, id, chunks[k])
  {
  }

  lemma Extend<T>(before: seq<T>, all: seq<T>, n: nat)
    requires n < |all|
    ensures before + all[..n] + [all[n]] == before + all[..n + 1]
  {
  }

  function EndedBy(error: ReadError): Ending {
    match error
    case Nil => Waiting
    case Eof => Finished
    case Broken => Interrupted
  }

  lemma Stopped(results: seq<ReadResult>, n: nat, error: ReadError)
    requires n <= Consumed(results) && error == if n == 0 then Nil else results[n - 1].error
    requires n == |results| || error != Nil
    ensures NonEmpty(results[..n]) == Chunks(results) && EndingOf(results) == EndedBy(error)
  {
    hide NonEmpty, Consumed;
    assert n == Consumed(results);
  }

  /** The frame that closes the response: an error if the body broke off, an end if it finished. */
  method Finish(writer: MuxWriter, id: uint32, error: ReadError, capacity: nat)
    requires writer.Valid()
    modifies writer
    ensures writer.Valid()
    ensures writer.frames == old(writer.frames) + Sent(Final(id, EndedBy(error)), capacity)
  {
    hide Ascii;
    if error == Eof {
      var _ := writer.Send(RESPONSE_END, id, [], capacity > 0);
    } else if error == Broken {
      var _ := writer.Send(RESPONSE_ERROR, id, Ascii(RESPONSE_INTERRUPTED), capacity > 0);
    }
  }

  /** One read of the copy loop, in terms of the whole body. */
  lemma CopyStep(results: seq<ReadResult>, n: nat)
    requires n < |results| && n <= Consumed(results)
    requires n > 0 ==> results[n - 1].error == Nil
    ensures n < Consumed(results)
    ensures var (sent, chunks) := (|NonEmpty(results[..n])|, Chunks(results));
            && |NonEmpty(results[..n + 1])| == (if results[n].data != [] then sent + 1 else sent) <= |chunks|
            && (results[n].data != [] ==> chunks[sent] == results[n].data)
  {
    var consumed := results[..Consumed(results)];
    assert results[..n + 1][..n] == results[..n];
    assert consumed[..n + 1] == results[..n + 1];
    NonEmptyPrefix(consumed, n + 1);
  }
}

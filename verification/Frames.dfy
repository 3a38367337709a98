/** The binary frame codec shared by `muxWriter.send`, the server's read loop and the page runtime:
    one version byte, one kind byte, a big-endian uint32 stream id, then the payload. */
module Frames {
  import opened Wrappers

  type byte = b: int | 0 <= b < 0x100
  type uint32 = w: int | 0 <= w < 0x1_0000_0000

  const VERSION: byte := 1
  const HEADER_LENGTH := 6

  const START: byte := 1
  const CHUNK: byte := 2
  const END: byte := 3
  const CANCEL: byte := 4
  const RESPONSE: byte := 11
  const RESPONSE_CHUNK: byte := 12
  const RESPONSE_END: byte := 13
  const RESPONSE_ERROR: byte := 14

  datatype Frame = Frame(kind: byte, id: uint32, payload: seq<byte>)

  function BigEndian(id: uint32): (r: seq<byte>)
    ensures |r| == 4
  {
    [id / 0x100_0000, id / 0x1_0000 % 0x100, id / 0x100 % 0x100, id % 0x100]
  }

  function ReadBigEndian(bytes: seq<byte>): uint32
    requires |bytes| == 4
  {
    var b0: int, b1: int, b2: int := bytes[0], bytes[1], bytes[2];
    b0 * 0x100_0000 + b1 * 0x1_0000 + b2 * 0x100 + bytes[3]
  }

  lemma BigEndianRoundTrip(id: uint32)
    ensures ReadBigEndian(BigEndian(id)) == id
  {
    assert id / 0x1_0000 == id / 0x100_0000 * 0x100 + id / 0x1_0000 % 0x100;
    assert id / 0x100 == id / 0x1_0000 * 0x100 + id / 0x100 % 0x100;
  }

  lemma BytesRoundTrip(bytes: seq<byte>)
    requires |bytes| == 4
    ensures BigEndian(ReadBigEndian(bytes)) == bytes
  {
    var b0: int, b1: int, b2: int, b3: int := bytes[0], bytes[1], bytes[2], bytes[3];
    var id := ReadBigEndian(bytes);
    assert id / 0x100 == b0 * 0x1_0000 + b1 * 0x100 + b2;
    assert id / 0x1_0000 == b0 * 0x100 + b1;
    assert id / 0x100_0000 == b0;
    assert id % 0x100 == b3 && id / 0x100 % 0x100 == b2 && id / 0x1_0000 % 0x100 == b1;
    assert BigEndian(id) == [b0, b1, b2, b3];
  }

  function Encode(f: Frame): seq<byte> {
    [VERSION, f.kind] + BigEndian(f.id) + f.payload
  }

  /** `None` is the malformed message on which the server closes the socket and the page returns early. */
  function Decode(data: seq<byte>): Option<Frame> {
    if |data| < HEADER_LENGTH || data[0] != VERSION then None
    else Some(Frame(data[1], ReadBigEndian(data[2..6]), data[6..]))
  }

  lemma DecodeInvertsEncode(f: Frame)
    ensures Decode(Encode(f)) == Some(f)
  {
    var data := Encode(f);
    BigEndianRoundTrip(f.id);
    assert data[2..6] == BigEndian(f.id);
    assert data[6..] == f.payload;
  }

  /** The bytes on the wire: version 1, the kind, the id from its highest byte to its lowest, then the payload. */
  lemma WireLayout(f: Frame)
    ensures var data := Encode(f);
            && |data| == 6 + |f.payload| && data[0] == 1 && data[1] == f.kind && data[6..] == f.payload
            && var b2: int, b3: int, b4: int, b5: int := data[2], data[3], data[4], data[5];
               f.id == 16_777_216 * b2 + 65_536 * b3 + 256 * b4 + b5
    ensures [START, CHUNK, END, CANCEL, RESPONSE, RESPONSE_CHUNK, RESPONSE_END, RESPONSE_ERROR] == [1, 2, 3, 4, 11, 12, 13, 14]
  {
    BigEndianRoundTrip(f.id);
  }

  /** A message the decoder accepts is the encoding of what it decodes to, so no two messages decode alike. */
  lemma EncodeInvertsDecode(data: seq<byte>)
    requires Decode(data).Some?
    ensures Encode(Decode(data).value) == data
  {
    BytesRoundTrip(data[2..6]);
    assert data == [data[0], data[1]] + data[2..6] + data[6..];
  }

  /** The bytes of a message id; the ids the server sends are ASCII. */
  function Ascii(s: string): (r: seq<byte>)
    ensures |r| == |s|
  {
    seq(|s|, i requires 0 <= i < |s| => s[i] as int % 0x100)
  }

  function ErrorFrame(id: uint32, message: string): Frame {
    Frame(RESPONSE_ERROR, id, Ascii(message))
  }

  function Concat(parts: seq<seq<byte>>): seq<byte> {
    if parts == [] then [] else Concat(parts[..|parts| - 1]) + parts[|parts| - 1]
  }

  lemma ConcatSnoc(parts: seq<seq<byte>>, part: seq<byte>)
    ensures Concat(parts + [part]) == Concat(parts) + part
  {
    assert (parts + [part])[..|parts|] == parts;
  }

  function EncodeAll(frames: seq<Frame>): seq<seq<byte>> {
    seq(|frames|, i requires 0 <= i < |frames| => Encode(frames[i]))
  }

  /** The mutex-guarded writer. `written` is what the connection has accepted, in order; `frames` is its meaning. */
  class MuxWriter {
    var written: seq<seq<byte>>
    ghost var frames: seq<Frame>

    ghost predicate Valid()
      reads this
    {
      written == EncodeAll(frames)
    }

    constructor ()
      ensures Valid() && frames == []
    {
      written, frames := [], [];
    }

    /** `connected` is whether the underlying write succeeds; the buffer is filled as the source fills it. */
    method Send(kind: byte, id: uint32, payload: seq<byte>, connected: bool) returns (ok: bool)
      requires Valid()
      modifies this
      ensures Valid() && ok == connected
      ensures frames == if connected then old(frames) + [Frame(kind, id, payload)] else old(frames)
    {
      var frame := new byte[HEADER_LENGTH + |payload|];
      frame[0] := VERSION;
      frame[1] := kind;
      var word := BigEndian(id);
      frame[2], frame[3], frame[4], frame[5] := word[0], word[1], word[2], word[3];
      for i := 0 to |payload|
        invariant frame[..6] == [VERSION, kind] + word
        invariant frame[6..6 + i] == payload[..i]
        invariant Valid() && frames == old(frames)
      {
        frame[6 + i] := payload[i];
      }
      assert frame[..] == frame[..6] + frame[6..6 + |payload|];
      assert payload[..|payload|] == payload;
      if connected {
        written, frames := written + [frame[..]], frames + [Frame(kind, id, payload)];
      }
      ok := connected;
    }
  }
}

/**
 * The length-prefixed binary frame codec of the binary-protocol variant.
 * A frame is a 3-byte header (command code, then the payload length as
 * two big-endian bytes) followed by the payload. Payloads are built from
 * short strings (1-byte length prefix, at most 255 bytes), long strings
 * (2-byte length prefix, at most 65535 bytes) and single raw bytes.
 */
module ProtocolCustom {
  import opened Wrappers
  import opened Bytes
  import opened Seqs

  /** `struct.calcsize("!BH")`. */
  const HEADER_SIZE: nat := 3

  const CMD_LOGIN: byte := 1
  const CMD_CREATE: byte := 2
  const CMD_SEND: byte := 3
  const CMD_READ: byte := 4
  const CMD_DELETE_MSG: byte := 5
  const CMD_VIEW_CONV: byte := 6
  const CMD_DELETE_ACC: byte := 7
  const CMD_LOGOFF: byte := 8
  const CMD_CLOSE: byte := 9
  const CMD_SEARCH_USERS: byte := 10
  const CMD_READ_ACK: byte := 11

  /**
   * What the codec raises: `ValueError` for a string too long for its
   * prefix, `struct.error` for a value outside its field and for reading
   * past the end of the buffer.
   */
  datatype CodecError = StringTooLong | OutOfRange | BufferTooShort

  /** `pack_short_string`: one length byte, then the bytes; refused above 255 bytes. */
  function PackShortString(s: seq<byte>): (r: Result<seq<byte>, CodecError>)
    ensures r.Ok? <==> |s| <= 255
    ensures r.Ok? ==> |r.value| == 1 + |s| && r.value[0] == |s| && r.value[1..] == s
    ensures r.Err? ==> r.error == StringTooLong
  {
    if |s| > 255 then Err(StringTooLong) else Ok([|s|] + s)
  }

  /**
   * `unpack_short_string(data, offset)`: the declared length is read at
   * `offset`; the string is whatever of the next `length` bytes exists, and
   * the new offset always moves past the full declared length.
   */
  function UnpackShortString(data: seq<byte>, offset: nat): (r: Result<(seq<byte>, nat), CodecError>)
    ensures r.Ok? <==> offset < |data|
    ensures r.Err? ==> r.error == BufferTooShort
    ensures r.Ok? ==> r.value.1 == offset + 1 + data[offset]
    ensures r.Ok? ==> |r.value.0| <= data[offset] && offset + 1 + |r.value.0| <= |data|
    ensures r.Ok? ==> r.value.0 == data[offset + 1..offset + 1 + |r.value.0|]
    ensures r.Ok? ==> (|r.value.0| == data[offset] <==> r.value.1 <= |data|)
  {
    if offset + 1 > |data| then Err(BufferTooShort)
    else
      var start := offset + 1;
      var end := start + data[offset];
      Ok((data[start..Min(end, |data|)], end))
  }

  /** `pack_long_string`: two big-endian length bytes, then the bytes; refused above 65535 bytes. */
  function PackLongString(s: seq<byte>): (r: Result<seq<byte>, CodecError>)
    ensures r.Ok? <==> |s| <= 65535
    ensures r.Ok? ==> |r.value| == 2 + |s| && ReadBigEndian16(r.value, 0) == |s| && r.value[2..] == s
    ensures r.Err? ==> r.error == StringTooLong
  {
    if |s| > 65535 then Err(StringTooLong) else Ok(BigEndian16(|s|) + s)
  }

  /** `unpack_long_string(data, offset)`: as for short strings, with a 2-byte length. */
  function UnpackLongString(data: seq<byte>, offset: nat): (r: Result<(seq<byte>, nat), CodecError>)
    ensures r.Ok? <==> offset + 2 <= |data|
    ensures r.Err? ==> r.error == BufferTooShort
    ensures r.Ok? ==> r.value.1 == offset + 2 + ReadBigEndian16(data, offset)
    ensures r.Ok? ==> |r.value.0| <= ReadBigEndian16(data, offset) && offset + 2 + |r.value.0| <= |data|
    ensures r.Ok? ==> r.value.0 == data[offset + 2..offset + 2 + |r.value.0|]
    ensures r.Ok? ==> (|r.value.0| == ReadBigEndian16(data, offset) <==> r.value.1 <= |data|)
  {
    if offset + 2 > |data| then Err(BufferTooShort)
    else
      var start := offset + 2;
      var end := start + ReadBigEndian16(data, offset);
      Ok((data[start..Min(end, |data|)], end))
  }

  /** A short string packed at offset `|prefix|` unpacks to itself, and the offset moves past it. */
  lemma UnpackShortOfPacked(prefix: seq<byte>, s: seq<byte>, rest: seq<byte>)
    requires |s| <= 255
    ensures UnpackShortString(prefix + PackShortString(s).value + rest, |prefix|) == Ok((s, |prefix| + 1 + |s|))
  {
    var data := prefix + PackShortString(s).value + rest;
    assert data[|prefix|] == |s|;
    assert data[|prefix| + 1..|prefix| + 1 + |s|] == s;
  }

  /** The same for long strings, with a 2-byte prefix. */
  lemma UnpackLongOfPacked(prefix: seq<byte>, s: seq<byte>, rest: seq<byte>)
    requires |s| <= 65535
    ensures UnpackLongString(prefix + PackLongString(s).value + rest, |prefix|) == Ok((s, |prefix| + 2 + |s|))
  {
    var data := prefix + PackLongString(s).value + rest;
    assert data == prefix + BigEndian16(|s|) + (s + rest);
    BigEndian16RoundTrip(|s|, prefix, s + rest);
    assert data[|prefix| + 2..|prefix| + 2 + |s|] == s;
  }

  /**
   * `encode_message(cmd, payload)`: the command byte, the payload length as
   * two big-endian bytes, the payload. `struct.pack` refuses a command code
   * outside a byte and a payload longer than 65535 bytes.
   */
  function EncodeMessage(cmd: int, payload: seq<byte>): (r: Result<seq<byte>, CodecError>)
    ensures r.Ok? <==> 0 <= cmd < 256 && |payload| <= 65535
    ensures r.Err? ==> r.error == OutOfRange
    ensures r.Ok? ==> |r.value| == HEADER_SIZE + |payload|
    ensures r.Ok? ==> r.value[0] == cmd && ReadBigEndian16(r.value, 1) == |payload| && r.value[HEADER_SIZE..] == payload
  {
    if !(0 <= cmd < 256) || |payload| > 65535 then Err(OutOfRange)
    else
      var r := [cmd as byte] + BigEndian16(|payload|) + payload;
      BigEndian16RoundTrip(|payload|, [cmd as byte], payload);
      Ok(r)
  }

  /** Why `decode_message` raises: the peer closed before a full header, or before the full payload. */
  datatype FramingError = ClosedInHeader | ClosedInPayload

  /** What `decode_message` makes of a connection that delivers the bytes `s` and then closes. */
  function Decoded(s: seq<byte>): (r: Result<(byte, seq<byte>), FramingError>)
  {
    if |s| < HEADER_SIZE then Err(ClosedInHeader)
    else
      var length := ReadBigEndian16(s, 1);
      if |s| < HEADER_SIZE + length then Err(ClosedInPayload)
      else Ok((s[0], s[HEADER_SIZE..HEADER_SIZE + length]))
  }

  /** An encoded frame, followed by anything, decodes to exactly its command and payload. */
  lemma DecodedOfEncoded(cmd: byte, payload: seq<byte>, rest: seq<byte>)
    requires |payload| <= 65535
    ensures EncodeMessage(cmd, payload).Ok?
    ensures Decoded(EncodeMessage(cmd, payload).value + rest) == Ok((cmd, payload))
  {
    var e := EncodeMessage(cmd, payload).value;
    var s := e + rest;
    assert s[0] == e[0] && s[1] == e[1] && s[2] == e[2];
    assert ReadBigEndian16(s, 1) == ReadBigEndian16(e, 1);
    assert s[HEADER_SIZE..HEADER_SIZE + |payload|] == e[HEADER_SIZE..];
  }

  /** A truncated frame is refused: no partial header and no partial payload is ever returned. */
  lemma DecodedOfTruncated(cmd: byte, payload: seq<byte>, k: nat)
    requires |payload| <= 65535 && k < HEADER_SIZE + |payload|
    ensures EncodeMessage(cmd, payload).Ok?
    ensures Decoded(EncodeMessage(cmd, payload).value[..k]).Err?
  {
    var e := EncodeMessage(cmd, payload).value;
    var s := e[..k];
    if k >= HEADER_SIZE {
      assert s[1] == e[1] && s[2] == e[2];
      assert ReadBigEndian16(s, 1) == |payload|;
    }
  }

  /**
   * The frames `decode_message` returns, call after call, on a connection
   * that delivers `s` and then closes, up to the first call that raises.
   */
  function FramesIn(s: seq<byte>): (r: seq<(byte, seq<byte>)>)
    ensures r == [] <==> Decoded(s).Err?
    decreases |s|
  {
    match Decoded(s)
    case Err(_) => []
    case Ok((cmd, payload)) => [(cmd, payload)] + FramesIn(s[HEADER_SIZE + |payload|..])
  }

  /** An encoded frame in front of anything is the first frame taken, and the rest follow from what is behind it. */
  lemma FramesInOfEncoded(cmd: byte, payload: seq<byte>, tail: seq<byte>)
    requires |payload| <= 65535
    ensures EncodeMessage(cmd, payload).Ok?
    ensures FramesIn(EncodeMessage(cmd, payload).value + tail) == [(cmd, payload)] + FramesIn(tail)
  {
    var e := EncodeMessage(cmd, payload).value;
    DecodedOfEncoded(cmd, payload, tail);
    assert (e + tail)[HEADER_SIZE + |payload|..] == tail;
  }

  /** The bytes of frames sent one after another. */
  function EncodeAll(frames: seq<(byte, seq<byte>)>): (r: seq<byte>)
    requires forall i :: 0 <= i < |frames| ==> |frames[i].1| <= 65535
  {
    if frames == [] then [] else EncodeMessage(frames[0].0, frames[0].1).value + EncodeAll(frames[1..])
  }

  /** Frames encoded one after another are decoded back as exactly those frames, in order. */
  lemma {:induction false} FramesInOfEncodeAll(frames: seq<(byte, seq<byte>)>, tail: seq<byte>)
    requires forall i :: 0 <= i < |frames| ==> |frames[i].1| <= 65535
    ensures FramesIn(EncodeAll(frames) + tail) == frames + FramesIn(tail)
  {
    if frames == [] {
      assert EncodeAll(frames) + tail == tail;
    } else {
      FramesInOfEncodeAll(frames[1..], tail);
      EncodeAllStep(frames, tail);
      ConsAppend(frames, FramesIn(tail));
    }
  }

  /** One step of `FramesInOfEncodeAll`: the first frame, then the frames behind it. */
  lemma EncodeAllStep(frames: seq<(byte, seq<byte>)>, tail: seq<byte>)
    requires frames != [] && forall i :: 0 <= i < |frames| ==> |frames[i].1| <= 65535
    ensures FramesIn(EncodeAll(frames) + tail) == [frames[0]] + FramesIn(EncodeAll(frames[1..]) + tail)
  {
    var e := EncodeMessage(frames[0].0, frames[0].1).value;
    var behind := EncodeAll(frames[1..]) + tail;
    assert EncodeAll(frames) + tail == e + behind;
    FramesInOfEncoded(frames[0].0, frames[0].1, behind);
  }

  /** What one `recv` call on the connection delivers: a non-empty piece of data. */
  type Chunk = c: seq<byte> | |c| > 0 witness [0]

  /**
   * `sock.recv(n)` on a connection that will deliver `stream` and then
   * close: at most `n` bytes of the first pending chunk (the rest stays
   * pending), or nothing once the peer has closed.
   */
  function Recv(stream: seq<Chunk>, n: nat): (r: (seq<byte>, seq<Chunk>))
    requires n > 0
    ensures |r.0| <= n
    ensures r.0 == [] <==> stream == []
    ensures r.0 == [] ==> r.1 == []
    ensures r.0 + Concat(r.1) == Concat(stream)
  {
    if stream == [] then ([], [])
    else
      var c := stream[0];
      if |c| <= n then (c, stream[1..])
      else
        var more: seq<Chunk> := [c[n..]] + stream[1..];
        assert more[1..] == stream[1..];
        assert c[..n] + c[n..] == c;
        (c[..n], more)
  }

  /**
   * One of the two accumulation loops of `decode_message`: `recv` until
   * `n` bytes are in hand, or the peer has closed before that.
   */
  method ReceiveExactly(stream: seq<Chunk>, n: nat) returns (data: seq<byte>, rest: seq<Chunk>)
    ensures |data| <= n
    ensures data + Concat(rest) == Concat(stream)
    ensures |data| < n ==> rest == []
  {
    data := [];
    rest := stream;
    while |data| < n
      invariant |data| <= n
      invariant data + Concat(rest) == Concat(stream)
      decreases n - |data|
    {
      var got := Recv(rest, n - |data|);
      if got.0 == [] {
        return;
      }
      assert (data + got.0) + Concat(got.1) == data + (got.0 + Concat(got.1));
      data := data + got.0;
      rest := got.1;
    }
  }

  /**
   * `decode_message(sock)`: accumulate the 3 header bytes, then exactly
   * `payload_length` payload bytes, however the bytes are split into
   * chunks. `rest` is what is still pending on the connection afterwards.
   */
  method DecodeMessage(stream: seq<Chunk>) returns (r: Result<(byte, seq<byte>), FramingError>, rest: seq<Chunk>)
    ensures r == Decoded(Concat(stream))
    ensures r.Ok? ==> EncodeMessage(r.value.0, r.value.1).Ok?
    ensures r.Ok? ==> Concat(stream) == EncodeMessage(r.value.0, r.value.1).value + Concat(rest)
    ensures r.Err? ==> rest == []
  {
    var header, afterHeader := ReceiveExactly(stream, HEADER_SIZE);
    if |header| < HEADER_SIZE {
      return Err(ClosedInHeader), [];
    }
    var cmd := header[0];
    var length := ReadBigEndian16(header, 1);
    var payload;
    payload, rest := ReceiveExactly(afterHeader, length);
    var s := Concat(stream);
    assert s == header + (payload + Concat(rest));
    assert s[0] == cmd && s[1] == header[1] && s[2] == header[2];
    if |payload| < length {
      return Err(ClosedInPayload), [];
    }
    r := Ok((cmd, payload));
    assert s[HEADER_SIZE..HEADER_SIZE + length] == payload;
    EncodedHeader(header, payload);
  }

  /** A received header followed by as many bytes as it declares is the encoding of that frame. */
  lemma EncodedHeader(header: seq<byte>, payload: seq<byte>)
    requires |header| == HEADER_SIZE && |payload| == ReadBigEndian16(header, 1)
    ensures EncodeMessage(header[0], payload) == Ok(header + payload)
  {
    BigEndian16OfRead(header, 1);
    assert header == [header[0]] + header[1..3];
  }

  /**
   * However an encoded frame is split into received chunks, and whatever
   * follows it, `decode_message` returns exactly that frame and leaves
   * exactly what followed it pending.
   */
  method DecodeAnyChunking(cmd: byte, payload: seq<byte>, tail: seq<byte>, stream: seq<Chunk>)
    returns (r: Result<(byte, seq<byte>), FramingError>, rest: seq<Chunk>)
    requires |payload| <= 65535
    requires EncodeMessage(cmd, payload).Ok?
    requires Concat(stream) == EncodeMessage(cmd, payload).value + tail
    ensures r == Ok((cmd, payload))
    ensures Concat(rest) == tail
  {
    DecodedOfEncoded(cmd, payload, tail);
    r, rest := DecodeMessage(stream);
    var e := EncodeMessage(cmd, payload).value;
    assert Concat(stream) == e + Concat(rest);
    assert Concat(stream)[|e|..] == tail;
    assert Concat(stream)[|e|..] == Concat(rest);
  }
}

/**
 * The request payloads the binary-protocol client packs for each command
 * (`pack_login` ... `pack_close`). Each is a concatenation of short strings,
 * long strings and single bytes; the first packer that raises decides the
 * error, as Python evaluates `a + b` from the left.
 */
module ClientCustom {
  import opened Wrappers
  import opened Bytes
  import opened ProtocolCustom

  /** `a + b` of two packed parts, propagating the first exception. */
  function Append(a: Result<seq<byte>, CodecError>, b: Result<seq<byte>, CodecError>): (r: Result<seq<byte>, CodecError>)
    ensures r.Ok? <==> a.Ok? && b.Ok?
    ensures r.Ok? ==> r.value == a.value + b.value
    ensures a.Err? ==> r == a
  {
    if a.Err? then a else if b.Err? then b else Ok(a.value + b.value)
  }

  /** `struct.pack("!B", n)`. */
  function PackByte(n: int): (r: Result<seq<byte>, CodecError>)
    ensures r.Ok? <==> 0 <= n < 256
    ensures r.Ok? ==> r.value == [n]
  {
    if 0 <= n < 256 then Ok([n]) else Err(OutOfRange)
  }

  function PackLogin(username: seq<byte>, password: seq<byte>): Result<seq<byte>, CodecError>
  {
    Append(PackShortString(username), PackShortString(password))
  }

  function PackCreate(username: seq<byte>, password: seq<byte>): Result<seq<byte>, CodecError>
  {
    Append(PackShortString(username), PackShortString(password))
  }

  function PackSend(sender: seq<byte>, recipient: seq<byte>, message: seq<byte>): Result<seq<byte>, CodecError>
  {
    Append(Append(PackShortString(sender), PackShortString(recipient)), PackLongString(message))
  }

  /** `pack_read`: the username, then the limit as one byte (0 asks for everything). */
  function PackRead(username: seq<byte>, limit: int): (r: Result<seq<byte>, CodecError>)
    ensures r.Ok? <==> |username| <= 255 && 0 <= limit < 256
    ensures r.Ok? ==> |r.value| == |username| + 2 && r.value[|username| + 1] == limit
  {
    Append(PackShortString(username), PackByte(limit))
  }

  /** Every index fits in one byte. */
  predicate AllBytes(indices: seq<int>)
  {
    forall k :: 0 <= k < |indices| ==> 0 <= indices[k] < 256
  }

  function AsBytes(indices: seq<int>): (r: seq<byte>)
    requires AllBytes(indices)
    ensures |r| == |indices| && forall k :: 0 <= k < |indices| ==> r[k] == indices[k]
  {
    seq(|indices|, k requires 0 <= k < |indices| => indices[k] as byte)
  }

  /**
   * What `pack_delete_msg(username, indices)` returns: the username, a
   * count byte equal to the number of indices, then each index as one byte,
   * in order.
   */
  function DeleteMsgPayload(username: seq<byte>, indices: seq<int>): (r: Result<seq<byte>, CodecError>)
    ensures r.Ok? <==> |username| <= 255 && |indices| < 256 && AllBytes(indices)
    ensures r.Ok? ==> |r.value| == 1 + |username| + 1 + |indices|
    ensures r.Ok? ==> r.value[1 + |username|] == |indices|
    ensures r.Ok? ==> forall k :: 0 <= k < |indices| ==> r.value[2 + |username| + k] == indices[k]
  {
    if |username| > 255 then Err(StringTooLong)
    else if |indices| >= 256 || !AllBytes(indices) then Err(OutOfRange)
    else Ok(PackShortString(username).value + [|indices|] + AsBytes(indices))
  }

  /** `pack_delete_msg`: the loop that appends one byte per index. */
  method PackDeleteMsg(username: seq<byte>, indices: seq<int>) returns (r: Result<seq<byte>, CodecError>)
    ensures r == DeleteMsgPayload(username, indices)
  {
    var head := PackShortString(username);
    if head.Err? {
      return Err(head.error);
    }
    var count := PackByte(|indices|);
    if count.Err? {
      return Err(count.error);
    }
    var data := head.value + count.value;
    for k := 0 to |indices|
      invariant AllBytes(indices[..k])
      invariant data == head.value + [|indices|] + AsBytes(indices[..k])
    {
      var b := PackByte(indices[k]);
      if b.Err? {
        return Err(b.error);
      }
      assert indices[..k + 1] == indices[..k] + [indices[k]];
      assert AsBytes(indices[..k + 1]) == AsBytes(indices[..k]) + [indices[k]];
      data := data + b.value;
    }
    assert indices[..|indices|] == indices;
    return Ok(data);
  }

  function PackViewConv(username: seq<byte>, otherUser: seq<byte>): Result<seq<byte>, CodecError>
  {
    Append(PackShortString(username), PackShortString(otherUser))
  }

  function PackDeleteAcc(username: seq<byte>): Result<seq<byte>, CodecError>
  {
    PackShortString(username)
  }

  function PackLogoff(username: seq<byte>): Result<seq<byte>, CodecError>
  {
    PackShortString(username)
  }

  function PackClose(username: seq<byte>): Result<seq<byte>, CodecError>
  {
    PackShortString(username)
  }
}

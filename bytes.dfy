/** Bytes as the binary protocol and Python's `struct` module see them. */
module Bytes {

  /** One unsigned byte, `struct` format `B`. */
  type byte = b: int | 0 <= b < 256

  /** Two bytes of `n`, most significant first: `struct.pack("!H", n)`. */
  function BigEndian16(n: nat): (r: seq<byte>)
    requires n < 0x1_0000
    ensures |r| == 2 && (r[0] as int) * 256 + r[1] == n
  {
    [n / 256, n % 256]
  }

  /** `struct.unpack_from("!H", data, offset)[0]`. */
  function ReadBigEndian16(data: seq<byte>, offset: nat): (n: nat)
    requires offset + 2 <= |data|
    ensures n < 0x1_0000
  {
    (data[offset] as int) * 256 + data[offset + 1]
  }

  lemma BigEndian16RoundTrip(n: nat, prefix: seq<byte>, rest: seq<byte>)
    requires n < 0x1_0000
    ensures ReadBigEndian16(prefix + BigEndian16(n) + rest, |prefix|) == n
  {
    var data := prefix + BigEndian16(n) + rest;
    assert data[|prefix|] == BigEndian16(n)[0] && data[|prefix| + 1] == BigEndian16(n)[1];
  }

  /** Any two bytes are the big-endian form of the number they are read as. */
  lemma BigEndian16OfRead(data: seq<byte>, offset: nat)
    requires offset + 2 <= |data|
    ensures BigEndian16(ReadBigEndian16(data, offset)) == data[offset..offset + 2]
  {
    var n := ReadBigEndian16(data, offset);
    assert n / 256 == data[offset] && n % 256 == data[offset + 1];
  }

  /** The UTF-8 encoding of an ASCII-only literal (one byte per character). */
  function Ascii(s: string): (r: seq<byte>)
    requires forall i :: 0 <= i < |s| ==> s[i] as int < 128
    ensures |r| == |s| && forall i :: 0 <= i < |s| ==> r[i] == s[i] as int
  {
    seq(|s|, i requires 0 <= i < |s| => s[i] as int)
  }
}

/** Bytes, big-endian integers and a stream that is read to its end. */
module Bytes {
  import opened Text

  type byte = x: int | 0 <= x < 256

  function U16(high: byte, low: byte): (n: nat)
    ensures n < 65536
  {
    high * 256 + low
  }

  function U24(a: byte, b: byte, c: byte): (n: nat)
    ensures n < 16777216
  {
    a * 65536 + b * 256 + c
  }

  function E16(n: nat): (r: seq<byte>)
    requires n < 65536
    ensures |r| == 2 && U16(r[0], r[1]) == n
  {
    [n / 256, n % 256]
  }

  function E24(n: nat): (r: seq<byte>)
    requires n < 16777216
    ensures |r| == 3 && U24(r[0], r[1], r[2]) == n
  {
    assert n / 65536 == n / 256 / 256;
    [n / 65536, n / 256 % 256, n % 256]
  }

  /** Network byte order: the first byte is the most significant one. */
  lemma BigEndian16(high: byte, low: byte)
    ensures U16(high, low) / 256 == high && U16(high, low) % 256 == low && E16(U16(high, low)) == [high, low]
  {
  }

  lemma BigEndian24(a: byte, b: byte, c: byte)
    ensures U24(a, b, c) / 65536 == a && U24(a, b, c) / 256 % 256 == b && U24(a, b, c) % 256 == c
  {
    Split(a, b * 256 + c, 65536);
    Split(a * 256 + b, c, 256);
    Split(a, b, 256);
  }

  lemma Split(q: nat, r: nat, d: nat)
    requires r < d
    ensures (q * d + r) / d == q && (q * d + r) % d == r
  {
    var n := q * d + r;
    assert n == n / d * d + n % d;
    Multiples(q - n / d, d);
    assert (q - n / d) * d == n % d - r;
  }

  lemma Multiples(x: int, d: nat)
    ensures x >= 1 ==> x * d >= d
    ensures x <= -1 ==> x * d + d <= 0
  {
  }

  /** The bytes a connection delivers before it ends or its deadline passes. */
  class ByteReader {
    const data: seq<byte>
    var pos: nat

    ghost predicate Valid()
      reads this
    {
      pos <= |data|
    }

    constructor (data: seq<byte>)
      ensures Valid() && this.data == data && pos == 0
    {
      this.data, pos := data, 0;
    }

    /** All `n` bytes, or nothing: a short stream is then used up. */
    method ReadFull(n: nat) returns (r: Option<seq<byte>>)
      requires Valid()
      modifies this
      ensures Valid()
      ensures r.Some? <==> old(pos) + n <= |data|
      ensures r.Some? ==> pos == old(pos) + n && r.value == data[old(pos)..pos]
      ensures r.None? ==> pos == |data|
    {
      if pos + n <= |data| {
        r := Some(data[pos..pos + n]);
        pos := pos + n;
      } else {
        r := None;
        pos := |data|;
      }
    }
  }
}

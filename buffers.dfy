/** Bytes, fixed-width big-endian integers and the byte cursor (`Parser`) that
    the extended-key serializer reads from and writes to. */
module Buffers {
  import opened Wrappers

  type Byte = b: int | 0 <= b < 256

  /** 256^n: one more than the largest value an n-byte field holds. */
  function Pow256(n: nat): (r: nat)
    ensures r > 0
  {
    if n == 0 then 1 else 256 * Pow256(n - 1)
  }

  /** The unsigned value of a big-endian byte string. */
  function FromBigEndian(bs: seq<Byte>): (r: nat)
  {
    if |bs| == 0 then 0 else FromBigEndian(bs[..|bs| - 1]) * 256 + bs[|bs| - 1]
  }

  /** An n-byte field holds a value below 256^n. */
  lemma {:induction false} FromBigEndianBound(bs: seq<Byte>)
    ensures FromBigEndian(bs) < Pow256(|bs|)
  {
    if |bs| > 0 {
      var high := FromBigEndian(bs[..|bs| - 1]);
      FromBigEndianBound(bs[..|bs| - 1]);
      assert high * 256 <= (Pow256(|bs| - 1) - 1) * 256;
    }
  }

  /** The low `width` bytes of `x`, most significant first. */
  function BigEndian(x: nat, width: nat): (r: seq<Byte>)
    ensures |r| == width
  {
    if width == 0 then [] else BigEndian(x / 256, width - 1) + [x % 256]
  }

  /** A value below 256^width reads back from its width-byte encoding. */
  lemma {:induction false} FromBigEndianOfEncoded(x: nat, width: nat)
    requires x < Pow256(width)
    ensures FromBigEndian(BigEndian(x, width)) == x
  {
    if width > 0 {
      var r := BigEndian(x, width);
      FromBigEndianOfEncoded(x / 256, width - 1);
      assert r[..width - 1] == BigEndian(x / 256, width - 1);
    }
  }

  /** Re-encoding a decoded field at its width gives back its bytes. */
  lemma {:induction false} BigEndianOfDecoded(bs: seq<Byte>)
    ensures BigEndian(FromBigEndian(bs), |bs|) == bs
  {
    if |bs| > 0 {
      var init := bs[..|bs| - 1];
      var x := FromBigEndian(bs);
      BigEndianOfDecoded(init);
      assert x / 256 == FromBigEndian(init);
      assert x % 256 == bs[|bs| - 1];
      assert bs == init + [bs[|bs| - 1]];
    }
  }

  /** A byte string with a read/write cursor. Writes append to the buffer;
      reads consume bytes starting at `position`. */
  class Parser {
    var bytes: seq<Byte>
    var position: nat

    ghost predicate Valid()
      reads this
    {
      position <= |bytes|
    }

    constructor (data: seq<Byte>)
      ensures Valid() && bytes == data && position == 0
    {
      bytes := data;
      position := 0;
    }

    /** Reads the next `n` bytes; when fewer remain it fails and leaves the
        cursor where it was. */
    method ReadBytes(n: nat) returns (r: Option<seq<Byte>>)
      requires Valid()
      modifies this`position
      ensures Valid()
      ensures old(position) + n <= |bytes| ==>
        r == Some(bytes[old(position)..old(position) + n]) && position == old(position) + n
      ensures old(position) + n > |bytes| ==> r == None && position == old(position)
    {
      if position + n <= |bytes| {
        r := Some(bytes[position..position + n]);
        position := position + n;
      } else {
        r := None;
      }
    }

    /** Appends a field of exactly `n` raw bytes. */
    method WriteBytes(n: nat, data: seq<Byte>)
      requires Valid() && |data| == n
      modifies this`bytes
      ensures Valid()
      ensures bytes == old(bytes) + data
    {
      bytes := bytes + data;
    }

    /** Appends `value` as an `n`-byte big-endian integer. */
    method WriteInt(n: nat, value: nat)
      requires Valid() && value < Pow256(n)
      modifies this`bytes
      ensures Valid()
      ensures bytes == old(bytes) + BigEndian(value, n)
    {
      bytes := bytes + BigEndian(value, n);
    }
  }
}

/** The 78-byte extended-key record of BIP-0032 ("Serialization format"):
    version prefix (4) · depth (1) · parent fingerprint (4) · child number (4)
    · chain code (32) · key data (33), integers big-endian. */
module HierarchicalKeySerializer {
  import opened Wrappers
  import opened Buffers

  /** A 4-byte version prefix of the network's HD table. */
  type Prefix = s: seq<Byte> | |s| == 4 witness [0, 0, 0, 0]

  /** The network parameters the serializer needs: its HD version prefixes,
      either of which a network may lack. */
  datatype Network = Network(hdPrivByte: Option<Prefix>, hdPubByte: Option<Prefix>)

  /** Key material as the key factories wrap it: a 32-byte private scalar or a
      33-byte compressed public point. */
  datatype Key = PrivateKey(scalar: seq<Byte>) | PublicKey(point: seq<Byte>)

  datatype HierarchicalKey = HierarchicalKey(depth: nat, fingerprint: nat, sequence: nat, chainCode: nat, key: Key) {
    predicate IsPrivate() {
      key.PrivateKey?
    }

    /** Every field fits its width in the record. */
    predicate Fits() {
      && depth < Pow256(1)
      && fingerprint < Pow256(4)
      && sequence < Pow256(4)
      && chainCode < Pow256(32)
      && (key.PrivateKey? ==> |key.scalar| == 32)
      && (key.PublicKey? ==> |key.point| == 33)
    }
  }

  datatype Error =
    | NetworkNotConfigured  // the network lacks an HD version prefix
    | ParserOutOfRange      // the cursor ran out before the record was read
    | InvalidExtendedKey    // the input is not exactly one record long

  const RecordLength: nat := 78

  /** How far reading a record moves a cursor that has `available` bytes left:
      every field that fits is consumed, the first that does not stops it. */
  function Consumed(available: nat): (c: nat)
    ensures c <= available && c <= RecordLength
    ensures available >= RecordLength <==> c == RecordLength
    ensures c in {0, 4, 5, 9, 13, 45, 78}
  {
    if available < 4 then 0
    else if available < 5 then 4
    else if available < 9 then 5
    else if available < 13 then 9
    else if available < 45 then 13
    else if available < 78 then 45
    else 78
  }

  /** Two integer fields of the same width that read as the same value hold
      the same bytes. */
  lemma SameField(a: seq<Byte>, b: seq<Byte>, lo: nat, hi: nat)
    requires lo <= hi <= |a| && hi <= |b|
    requires FromBigEndian(a[lo..hi]) == FromBigEndian(b[lo..hi])
    ensures a[lo..hi] == b[lo..hi]
  {
    BigEndianOfDecoded(a[lo..hi]);
    BigEndianOfDecoded(b[lo..hi]);
  }

  class HexExtendedKeySerializer {
    const privPrefix: Prefix
    const pubPrefix: Prefix

    constructor (privPrefix: Prefix, pubPrefix: Prefix)
      ensures this.privPrefix == privPrefix && this.pubPrefix == pubPrefix
    {
      this.privPrefix := privPrefix;
      this.pubPrefix := pubPrefix;
    }

    /** Construction fails unless the network has both HD version prefixes. */
    static method Create(network: Network) returns (r: Result<HexExtendedKeySerializer, Error>)
      ensures r.Err? <==> network.hdPrivByte.None? || network.hdPubByte.None?
      ensures r.Err? ==> r.error == NetworkNotConfigured
      ensures r.Ok? ==> fresh(r.value)
      ensures r.Ok? ==> r.value.privPrefix == network.hdPrivByte.value && r.value.pubPrefix == network.hdPubByte.value
    {
      if network.hdPrivByte.None? || network.hdPubByte.None? {
        return Err(NetworkNotConfigured);
      }
      var s := new HexExtendedKeySerializer(network.hdPrivByte.value, network.hdPubByte.value);
      r := Ok(s);
    }

    /** The version prefix and 33-byte key data that a key is written with. */
    function PrefixAndData(k: HierarchicalKey): (r: (Prefix, seq<Byte>))
      requires k.Fits()
      ensures |r.1| == 33
      ensures k.IsPrivate() ==> r.0 == privPrefix && r.1[0] == 0 && r.1[1..] == k.key.scalar
      ensures !k.IsPrivate() ==> r.0 == pubPrefix && r.1 == k.key.point
    {
      if k.IsPrivate() then (privPrefix, [0] + k.key.scalar) else (pubPrefix, k.key.point)
    }

    /** The 78-byte record of a key: its fields in record order. */
    function Encode(k: HierarchicalKey): (r: seq<Byte>)
      requires k.Fits()
      ensures |r| == RecordLength
    {
      PrefixAndData(k).0 + BigEndian(k.depth, 1) + BigEndian(k.fingerprint, 4) + BigEndian(k.sequence, 4)
        + BigEndian(k.chainCode, 32) + PrefixAndData(k).1
    }

    /** The first three fields of the record sit at their offsets. */
    lemma EncodeHead(k: HierarchicalKey)
      requires k.Fits()
      ensures Encode(k)[..4] == PrefixAndData(k).0
      ensures Encode(k)[4..5] == BigEndian(k.depth, 1)
      ensures Encode(k)[5..9] == BigEndian(k.fingerprint, 4)
    {
    }

    /** The last three fields of the record sit at their offsets. */
    lemma EncodeTail(k: HierarchicalKey)
      requires k.Fits()
      ensures Encode(k)[9..13] == BigEndian(k.sequence, 4)
      ensures Encode(k)[13..45] == BigEndian(k.chainCode, 32)
      ensures Encode(k)[45..] == PrefixAndData(k).1
    {
    }

    /** Each field of the record occupies its fixed slice and reads back as
        the key's value. */
    lemma EncodeLayout(k: HierarchicalKey)
      requires k.Fits()
      ensures Encode(k)[..4] == PrefixAndData(k).0
      ensures FromBigEndian(Encode(k)[4..5]) == k.depth
      ensures FromBigEndian(Encode(k)[5..9]) == k.fingerprint
      ensures FromBigEndian(Encode(k)[9..13]) == k.sequence
      ensures FromBigEndian(Encode(k)[13..45]) == k.chainCode
      ensures Encode(k)[45..] == PrefixAndData(k).1
    {
      EncodeHead(k);
      EncodeTail(k);
      FromBigEndianOfEncoded(k.depth, 1);
      FromBigEndianOfEncoded(k.fingerprint, 4);
      FromBigEndianOfEncoded(k.sequence, 4);
      FromBigEndianOfEncoded(k.chainCode, 32);
    }

    /** Writes the six fields through a parser buffer, in record order. */
    method Serialize(k: HierarchicalKey) returns (bytes: seq<Byte>)
      requires k.Fits()
      ensures bytes == Encode(k)
      ensures |bytes| == RecordLength
    {
      var (prefix, data) := PrefixAndData(k);
      var buffer := new Parser([]);
      buffer.WriteBytes(4, prefix);
      assert buffer.bytes == prefix;
      buffer.WriteInt(1, k.depth);
      buffer.WriteInt(4, k.fingerprint);
      buffer.WriteInt(4, k.sequence);
      buffer.WriteInt(32, k.chainCode);
      buffer.WriteBytes(33, data);
      bytes := buffer.bytes;
    }

    /** The key in the record that starts at offset `at`. Only the private
        prefix selects a private key (the key data after its leading byte);
        every other prefix, the public one or not, selects a public key. */
    function Decode(data: seq<Byte>, at: nat): (r: Result<HierarchicalKey, Error>)
      requires at <= |data|
      ensures r.Err? <==> |data| - at < RecordLength
      ensures r.Err? ==> r.error == ParserOutOfRange
      ensures r.Ok? ==> (r.value.IsPrivate() <==> data[at..at + 4] == privPrefix)
      ensures r.Ok? && r.value.IsPrivate() ==> r.value.key.scalar == data[at + 46..at + 78]
      ensures r.Ok? && !r.value.IsPrivate() ==> r.value.key.point == data[at + 45..at + 78]
    {
      if |data| - at < RecordLength then Err(ParserOutOfRange)
      else
        var key := if data[at..at + 4] == privPrefix then PrivateKey(data[at + 46..at + 78])
                   else PublicKey(data[at + 45..at + 78]);
        Ok(HierarchicalKey(FromBigEndian(data[at + 4..at + 5]), FromBigEndian(data[at + 5..at + 9]),
                           FromBigEndian(data[at + 9..at + 13]), FromBigEndian(data[at + 13..at + 45]), key))
    }

    /** Every decoded key is one the serializer can write back. */
    lemma DecodedFits(data: seq<Byte>, at: nat)
      requires at <= |data|
      ensures Decode(data, at).Ok? ==> Decode(data, at).value.Fits()
    {
      if |data| - at >= RecordLength {
        FromBigEndianBound(data[at + 4..at + 5]);
        FromBigEndianBound(data[at + 5..at + 9]);
        FromBigEndianBound(data[at + 9..at + 13]);
        FromBigEndianBound(data[at + 13..at + 45]);
      }
    }

    /** Reads one record from the cursor, field by field. */
    method FromParser(parser: Parser) returns (r: Result<HierarchicalKey, Error>)
      requires parser.Valid()
      modifies parser`position
      ensures parser.Valid()
      ensures r == Decode(parser.bytes, old(parser.position))
      ensures parser.position == old(parser.position) + Consumed(|parser.bytes| - old(parser.position))
    {
      var prefix := parser.ReadBytes(4);
      if prefix.None? {
        return Err(ParserOutOfRange);
      }
      var depth := parser.ReadBytes(1);
      if depth.None? {
        return Err(ParserOutOfRange);
      }
      var fingerprint := parser.ReadBytes(4);
      if fingerprint.None? {
        return Err(ParserOutOfRange);
      }
      var sequence := parser.ReadBytes(4);
      if sequence.None? {
        return Err(ParserOutOfRange);
      }
      var chainCode := parser.ReadBytes(32);
      if chainCode.None? {
        return Err(ParserOutOfRange);
      }
      var keyData := parser.ReadBytes(33);
      if keyData.None? {
        return Err(ParserOutOfRange);
      }
      var key := if prefix.value == privPrefix then PrivateKey(keyData.value[1..]) else PublicKey(keyData.value);
      r := Ok(HierarchicalKey(FromBigEndian(depth.value), FromBigEndian(fingerprint.value),
                              FromBigEndian(sequence.value), FromBigEndian(chainCode.value), key));
    }

    /** Only input of exactly one record is accepted; it always decodes. */
    method Parse(data: seq<Byte>) returns (r: Result<HierarchicalKey, Error>)
      ensures |data| != RecordLength ==> r == Err(InvalidExtendedKey)
      ensures |data| == RecordLength ==> r.Ok? && r == Decode(data, 0)
    {
      if |data| != RecordLength {
        return Err(InvalidExtendedKey);
      }
      var parser := new Parser(data);
      r := FromParser(parser);
    }

    /** Decoding a serialized key recovers every field and its kind, whatever
        follows the record, provided the two prefixes differ. */
    lemma RoundTrip(k: HierarchicalKey, tail: seq<Byte>)
      requires k.Fits()
      requires privPrefix != pubPrefix
      ensures Decode(Encode(k) + tail, 0) == Ok(k)
    {
      var bytes := Encode(k) + tail;
      var e := Encode(k);
      EncodeLayout(k);
      assert bytes[..RecordLength] == e;
      assert bytes[..4] == e[..4] && bytes[4..5] == e[4..5] && bytes[5..9] == e[5..9];
      assert bytes[9..13] == e[9..13] && bytes[13..45] == e[13..45] && bytes[45..78] == e[45..];
    }

    /** Conversely, a record whose prefix is one of the two, and whose private
        key data starts with a zero byte, is re-serialized byte for byte. */
    lemma EncodeOfDecoded(data: seq<Byte>)
      requires |data| == RecordLength
      requires data[..4] == privPrefix || data[..4] == pubPrefix
      requires data[..4] == privPrefix ==> data[45] == 0
      ensures Decode(data, 0).Ok? && Decode(data, 0).value.Fits()
      ensures Encode(Decode(data, 0).value) == data
    {
      var k := Decode(data, 0).value;
      DecodedFits(data, 0);
      var e := Encode(k);
      EncodeLayout(k);
      SameField(e, data, 4, 5);
      SameField(e, data, 5, 9);
      SameField(e, data, 9, 13);
      SameField(e, data, 13, 45);
      assert e[..4] == data[..4];
      assert e[45..] == data[45..];
      forall i | 0 <= i < RecordLength
        ensures e[i] == data[i]
      {
        if i < 4 {
          assert e[i] == e[..4][i];
        } else if i < 5 {
          assert e[i] == e[4..5][i - 4];
        } else if i < 9 {
          assert e[i] == e[5..9][i - 5];
        } else if i < 13 {
          assert e[i] == e[9..13][i - 9];
        } else if i < 45 {
          assert e[i] == e[13..45][i - 13];
        } else {
          assert e[i] == e[45..][i - 45];
        }
      }
    }

    /** Why the round trip needs distinct prefixes: when they coincide, a
        serialized public key is read back as a private one. */
    lemma SharedPrefixMisreadsPublicKey(k: HierarchicalKey)
      requires k.Fits() && !k.IsPrivate()
      requires privPrefix == pubPrefix
      ensures Decode(Encode(k), 0).Ok? && Decode(Encode(k), 0).value.IsPrivate()
    {
    }
  }
}

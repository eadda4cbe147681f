/** The per-locking-condition signature accumulator of the transaction
    factory: one `Checksig` collects the signatures and public keys for one
    P2PK, P2PKH or multisig condition and turns them into unlock-stack items. */
module TransactionFactory {
  import opened Wrappers
  import opened Buffers

  type Bytes = seq<Byte>

  /** A transaction signature; its contents belong to the signature library. */
  type TransactionSignature

  /** A public key; its contents belong to the elliptic-curve library. */
  type PublicKey

  datatype ScriptType = P2PK | P2PKH | Multisig

  /** The classified locking script handed to the constructor: the script
      classifier's PayToPubkey, PayToPubkeyHash and Multisig objects, or any
      other object. */
  datatype Descriptor =
    | PayToPubkeyInfo(requiredSigs: nat)
    | PayToPubkeyHashInfo(requiredSigs: nat)
    | MultisigInfo(requiredSigs: nat, keyCount: nat)
    | OtherInfo

  datatype Error =
    | UnsupportedInfo           // the constructor was given another kind of object
    | ConditionalWithoutValue   // receivesValue on a conditional with no value
    | SignatureQueryOutOfRange  // hasSignature beyond requiredSigs
    | SignatureIndexOutOfRange  // setSignature outside [0, keyCount]
    | KeyIndexOutOfRange        // setKey outside [0, keyCount]
    | NullPublicKey             // a stored null key handed to the key serializer

  /** The indices below `n` that hold a signature, in ascending order. */
  function SignedIndices(sigs: map<int, TransactionSignature>, n: nat): (r: seq<nat>)
    ensures |r| <= n
    ensures forall i: int :: i in r <==> 0 <= i < n && i in sigs
    ensures forall j, k :: 0 <= j < k < |r| ==> r[j] < r[k]
  {
    if n == 0 then []
    else
      var below := SignedIndices(sigs, n - 1);
      assert forall j :: 0 <= j < |below| ==> below[j] in below;
      below + (if n - 1 in sigs then [n - 1] else [])
  }

  /** The serialized signatures at indices below `n`, in ascending index order,
      with absent indices skipped. */
  function SignatureItems(sigs: map<int, TransactionSignature>, ser: TransactionSignature -> Bytes, n: nat): (r: seq<Bytes>)
    ensures |r| <= n
  {
    if n == 0 then []
    else SignatureItems(sigs, ser, n - 1) + (if n - 1 in sigs then [ser(sigs[n - 1])] else [])
  }

  /** The items are the serialized signatures at the signed indices, one for
      one and in the same order. */
  lemma {:induction false} SignatureItemsFollowSignedIndices(sigs: map<int, TransactionSignature>,
                                                            ser: TransactionSignature -> Bytes, n: nat)
    ensures |SignatureItems(sigs, ser, n)| == |SignedIndices(sigs, n)|
    ensures forall k :: 0 <= k < |SignedIndices(sigs, n)| ==>
      SignedIndices(sigs, n)[k] in sigs && SignatureItems(sigs, ser, n)[k] == ser(sigs[SignedIndices(sigs, n)[k]])
  {
    if n > 0 {
      SignatureItemsFollowSignedIndices(sigs, ser, n - 1);
    }
  }

  /** The indices 0, ..., n - 1. */
  function Range(n: nat): (r: set<int>)
    ensures forall i :: i in r <==> 0 <= i < n
    ensures |r| == n
  {
    if n == 0 then {}
    else
      var below := Range(n - 1);
      assert n - 1 !in below;
      below + {n - 1}
  }

  /** A subset is no larger than its superset. */
  lemma SubsetSize(a: set<int>, b: set<int>)
    requires a <= b
    ensures |a| <= |b|
  {
    assert b == a + (b - a);
    assert a * (b - a) == {};
  }

  class Checksig {
    const scriptType: ScriptType
    const requiredSigs: nat
    const keyCount: nat
    const sigSerializer: TransactionSignature -> Bytes
    const keySerializer: PublicKey -> Bytes
    var required: bool
    var signatures: map<int, TransactionSignature>
    var publicKeys: map<int, Option<PublicKey>>

    /** Every stored signature and key sits at an index in [0, keyCount]. */
    ghost predicate Valid()
      reads this
    {
      && (forall i | i in signatures :: 0 <= i <= keyCount)
      && (forall i | i in publicKeys :: 0 <= i <= keyCount)
    }

    constructor (scriptType: ScriptType, requiredSigs: nat, keyCount: nat,
                 sigSerializer: TransactionSignature -> Bytes, keySerializer: PublicKey -> Bytes)
      ensures Valid()
      ensures this.scriptType == scriptType && this.requiredSigs == requiredSigs && this.keyCount == keyCount
      ensures this.sigSerializer == sigSerializer && this.keySerializer == keySerializer
      ensures required && signatures == map[] && publicKeys == map[]
    {
      this.scriptType := scriptType;
      this.requiredSigs := requiredSigs;
      this.keyCount := keyCount;
      this.sigSerializer := sigSerializer;
      this.keySerializer := keySerializer;
      required := true;
      signatures := map[];
      publicKeys := map[];
    }

    /** The constructor's dispatch on the kind of descriptor. */
    static method FromInfo(info: Descriptor, sigSerializer: TransactionSignature -> Bytes,
                           keySerializer: PublicKey -> Bytes) returns (r: Result<Checksig, Error>)
      ensures r.Err? <==> info.OtherInfo?
      ensures r.Err? ==> r.error == UnsupportedInfo
      ensures r.Ok? ==> fresh(r.value) && r.value.Valid()
      ensures r.Ok? ==> r.value.required && r.value.signatures == map[] && r.value.publicKeys == map[]
      ensures r.Ok? ==> r.value.requiredSigs == info.requiredSigs
      ensures r.Ok? ==> r.value.sigSerializer == sigSerializer && r.value.keySerializer == keySerializer
      ensures info.PayToPubkeyInfo? ==> r.Ok? && r.value.scriptType == P2PK && r.value.keyCount == 1
      ensures info.PayToPubkeyHashInfo? ==> r.Ok? && r.value.scriptType == P2PKH && r.value.keyCount == 1
      ensures info.MultisigInfo? ==> r.Ok? && r.value.scriptType == Multisig && r.value.keyCount == info.keyCount
    {
      match info {
        case PayToPubkeyInfo(m) =>
          var c := new Checksig(P2PK, m, 1, sigSerializer, keySerializer);
          r := Ok(c);
        case PayToPubkeyHashInfo(m) =>
          var c := new Checksig(P2PKH, m, 1, sigSerializer, keySerializer);
          r := Ok(c);
        case MultisigInfo(m, n) =>
          var c := new Checksig(Multisig, m, n, sigSerializer, keySerializer);
          r := Ok(c);
        case OtherInfo =>
          r := Err(UnsupportedInfo);
      }
    }

    /** A resolved branch: a false value waives this condition; a true value
        leaves it as it was. A conditional with no value is refused. */
    method ReceivesValue(conditional: Option<bool>) returns (r: Outcome<Error>)
      requires Valid()
      modifies this`required
      ensures Valid()
      ensures conditional.None? ==> r == Fail(ConditionalWithoutValue) && required == old(required)
      ensures conditional == Some(false) ==> r == Pass && !required && IsFullySigned()
      ensures conditional == Some(true) ==> r == Pass && required == old(required)
    {
      if conditional.None? {
        return Fail(ConditionalWithoutValue);
      }
      if conditional.value == false {
        SetRequired(false);
      }
      r := Pass;
    }

    method SetRequired(setting: bool)
      requires Valid()
      modifies this`required
      ensures Valid()
      ensures required == setting
    {
      required := setting;
    }

    /** A waived condition is always satisfied; a live one exactly when the
        number of collected signatures equals requiredSigs, whatever keyCount is. */
    function IsFullySigned(): (r: bool)
      reads this
      ensures !required ==> r
      ensures required && |signatures| < requiredSigs ==> !r
      ensures required ==> (r <==> |signatures| == requiredSigs)
    {
      if required then requiredSigs == |signatures| else true
    }

    /** Queries above requiredSigs are refused, even below keyCount. */
    function HasSignature(idx: int): (r: Result<bool, Error>)
      reads this
      ensures r.Err? <==> idx > requiredSigs
      ensures r.Err? ==> r.error == SignatureQueryOutOfRange
      ensures r.Ok? ==> (r.value <==> idx in signatures)
    {
      if idx > requiredSigs then Err(SignatureQueryOutOfRange) else Ok(idx in signatures)
    }

    /** The stored signature, or none (null) exactly when HasSignature says so. */
    function GetSignature(idx: int): (r: Result<Option<TransactionSignature>, Error>)
      reads this
      ensures r.Err? <==> HasSignature(idx).Err?
      ensures r.Ok? ==> (r.value.None? <==> HasSignature(idx) == Ok(false))
      ensures r.Ok? && r.value.Some? ==> idx in signatures && r.value.value == signatures[idx]
    {
      var has :- HasSignature(idx);
      if !has then Ok(None) else Ok(Some(signatures[idx]))
    }

    /** Stores or overwrites the signature at idx in [0, keyCount] (upper
        bound included); keys, the required flag and other indices are kept. */
    method SetSignature(idx: int, signature: TransactionSignature) returns (r: Outcome<Error>)
      requires Valid()
      modifies this`signatures
      ensures Valid()
      ensures r.Fail? <==> idx < 0 || idx > keyCount
      ensures r.Fail? ==> r.error == SignatureIndexOutOfRange && signatures == old(signatures)
      ensures r.Pass? ==> signatures == old(signatures)[idx := signature]
      ensures r.Pass? ==> signatures[idx := signature] == signatures
    {
      if idx < 0 || idx > keyCount {
        return Fail(SignatureIndexOutOfRange);
      }
      signatures := signatures[idx := signature];
      r := Pass;
    }

    /** Whether an entry, possibly null, is stored at idx; no range check. */
    function HasKey(idx: int): (r: bool)
      reads this
      ensures r <==> idx in publicKeys
    {
      idx in publicKeys
    }

    /** The key at idx, or none when nothing or null is stored there. */
    function GetKey(idx: int): (r: Option<PublicKey>)
      reads this
      ensures r.Some? <==> HasKey(idx) && publicKeys[idx].Some?
      ensures r.Some? ==> publicKeys[idx] == r
    {
      if !HasKey(idx) then None else publicKeys[idx]
    }

    /** Stores or overwrites the key (or null) at idx in [0, keyCount]; the
        signatures, the required flag and other indices are kept. */
    method SetKey(idx: int, key: Option<PublicKey>) returns (r: Outcome<Error>)
      requires Valid()
      modifies this`publicKeys
      ensures Valid()
      ensures r.Fail? <==> idx < 0 || idx > keyCount
      ensures r.Fail? ==> r.error == KeyIndexOutOfRange && publicKeys == old(publicKeys)
      ensures r.Pass? ==> publicKeys == old(publicKeys)[idx := key]
      ensures r.Pass? ==> publicKeys[idx := key] == publicKeys
    {
      if idx < 0 || idx > keyCount {
        return Fail(KeyIndexOutOfRange);
      }
      publicKeys := publicKeys[idx := key];
      r := Pass;
    }

    /** The unlock-stack items for this condition, one policy per script type. */
    method Serialize() returns (r: Result<seq<Bytes>, Error>)
      ensures scriptType == P2PK && !required ==> r == Ok([[]])
      ensures scriptType == P2PK && required ==>
        r == Ok(if 0 in signatures then [sigSerializer(signatures[0])] else [])
      ensures scriptType == P2PKH ==>
        r == if 0 !in signatures || 0 !in publicKeys then Ok([])
             else if publicKeys[0].None? then Err(NullPublicKey)
             else Ok([sigSerializer(signatures[0]), keySerializer(publicKeys[0].value)])
      ensures scriptType == Multisig && !required ==> r.Ok? && r.value == seq(requiredSigs + 1, _ => [])
      ensures scriptType == Multisig && required ==> (r.Err? <==> |publicKeys| > requiredSigs + 1)
      ensures scriptType == Multisig && required && r.Err? ==> r.error == SignatureQueryOutOfRange
      ensures scriptType == Multisig && required && r.Ok? ==>
        r.value == [[]] + SignatureItems(signatures, sigSerializer, |publicKeys|)
      ensures scriptType == Multisig && required && r.Ok? ==> |r.value| <= 1 + |publicKeys|
    {
      match scriptType {
        case P2PK =>
          if !required {
            r := Ok([[]]);
          } else {
            var has := HasSignature(0);
            if has.value {
              var sig := GetSignature(0);
              r := Ok([sigSerializer(sig.value.value)]);
            } else {
              r := Ok([]);
            }
          }
        case P2PKH =>
          var has := HasSignature(0);
          if has.value && HasKey(0) {
            var sig := GetSignature(0);
            var key := GetKey(0);
            if key.None? {
              r := Err(NullPublicKey);
            } else {
              r := Ok([sigSerializer(sig.value.value), keySerializer(key.value)]);
            }
          } else {
            r := Ok([]);
          }
        case Multisig =>
          if !required {
            r := Ok(seq(requiredSigs + 1, _ => []));
          } else {
            r := SerializeRequiredMultisig();
          }
      }
    }

    /** The required multisig branch: the dummy item that OP_CHECKMULTISIG
        pops, then a signature for each signed index below the number of
        stored keys. Each index is queried through HasSignature, so the loop
        fails once it passes requiredSigs. */
    method SerializeRequiredMultisig() returns (r: Result<seq<Bytes>, Error>)
      ensures r.Err? <==> |publicKeys| > requiredSigs + 1
      ensures r.Err? ==> r.error == SignatureQueryOutOfRange
      ensures r.Ok? ==> r.value == [[]] + SignatureItems(signatures, sigSerializer, |publicKeys|)
      ensures r.Ok? ==> |r.value| <= 1 + |publicKeys|
    {
      var items: seq<Bytes> := [[]];
      var nPubKeys := |publicKeys|;
      var i := 0;
      while i < nPubKeys
        invariant 0 <= i <= nPubKeys
        invariant i <= requiredSigs + 1
        invariant items == [[]] + SignatureItems(signatures, sigSerializer, i)
      {
        var has := HasSignature(i);
        if has.Err? {
          return Err(has.error);
        }
        ghost var step := if i in signatures then [sigSerializer(signatures[i])] else [];
        assert SignatureItems(signatures, sigSerializer, i + 1) == SignatureItems(signatures, sigSerializer, i) + step;
        if has.value {
          var sig := GetSignature(i);
          items := items + [sigSerializer(sig.value.value)];
        }
        i := i + 1;
      }
      r := Ok(items);
    }
  }

  /** A required 2-of-3 multisig signed at indices 0 and 2 with three keys
      stored: the signatures follow the leading dummy item in index order. */
  lemma SparseMultisigItems(a: TransactionSignature, b: TransactionSignature, ser: TransactionSignature -> Bytes)
    ensures SignatureItems(map[0 := a, 2 := b], ser, 3) == [ser(a), ser(b)]
  {
    var sigs := map[0 := a, 2 := b];
    assert 0 in sigs && 1 !in sigs && 2 in sigs && sigs[0] == a && sigs[2] == b;
    assert SignatureItems(sigs, ser, 1) == [ser(a)];
    assert SignatureItems(sigs, ser, 2) == [ser(a)];
  }

  /** A 2-of-3 multisig with all three keys stored and signatures at 0 and 2
      serializes as the dummy item followed by those two signatures. */
  method SparseMultisigSerializes(a: TransactionSignature, b: TransactionSignature, key: PublicKey,
                                  ser: TransactionSignature -> Bytes, keySer: PublicKey -> Bytes)
    returns (r: Result<seq<Bytes>, Error>)
    ensures r == Ok([[], ser(a), ser(b)])
  {
    var c := new Checksig(Multisig, 2, 3, ser, keySer);
    var o1 := c.SetKey(0, Some(key));
    var o2 := c.SetKey(1, Some(key));
    var o3 := c.SetKey(2, Some(key));
    var o4 := c.SetSignature(0, a);
    var o5 := c.SetSignature(2, b);
    assert |c.publicKeys| == 3 by {
      assert c.publicKeys.Keys == {0, 1, 2};
    }
    assert c.signatures == map[0 := a, 2 := b];
    SparseMultisigItems(a, b, ser);
    r := c.Serialize();
    assert [[]] + [ser(a), ser(b)] == [[], ser(a), ser(b)];
  }

  /** A required 1-of-3 multisig with all three keys stored cannot be
      serialized: the loop queries index 2, above requiredSigs. */
  method OneOfThreeWithAllKeysFails(key: PublicKey, ser: TransactionSignature -> Bytes, keySer: PublicKey -> Bytes)
    returns (r: Result<seq<Bytes>, Error>)
    ensures r == Err(SignatureQueryOutOfRange)
  {
    var c := new Checksig(Multisig, 1, 3, ser, keySer);
    var o6 := c.SetKey(0, Some(key));
    var o7 := c.SetKey(1, Some(key));
    var o8 := c.SetKey(2, Some(key));
    assert |c.publicKeys| == 3 by {
      assert c.publicKeys.Keys == {0, 1, 2};
    }
    r := c.Serialize();
  }

  /** With the inclusive upper bound an accumulator can hold keyCount + 1
      signatures and keys, and never more. */
  lemma StoredEntriesBound(c: Checksig)
    requires c.Valid()
    ensures |c.signatures| <= c.keyCount + 1
    ensures |c.publicKeys| <= c.keyCount + 1
  {
    var range := Range(c.keyCount + 1);
    SubsetSize(c.signatures.Keys, range);
    SubsetSize(c.publicKeys.Keys, range);
  }
}

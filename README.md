# Checksig accumulator and hex extended-key serializer

A Dafny model of two pieces of a PHP Bitcoin library.

**`Checksig`** (module `TransactionFactory`, file `checksig.dfy`) is the signature accumulator for one locking condition of a transaction input.
- A script classifier describes the condition as a pay-to-pubkey (P2PK), pay-to-pubkey-hash (P2PKH) or multisig descriptor.
- `Checksig` fixes the script type, the required signature count and the key count.
- It collects signatures and public keys in two sparse index-keyed maps.
- It keeps a `required` flag that a resolved `IF/ELSE` branch can clear.
- It turns its state into the unlock-stack items for that condition.
- Signatures and public keys are abstract types.
- The signature and key serializers are function values given at construction.

**`HexExtendedKeySerializer`** (module `HierarchicalKeySerializer`, file `hex_extended_key_serializer.dfy`) writes and reads the 78-byte extended-key record of BIP-0032, "Serialization format".
- The record is: version prefix (4 bytes), depth (1), parent fingerprint (4), child number (4), chain code (32), key data (33).
- Integers are big-endian.
- The key data is `0x00 ‖ scalar` for a private key and the compressed point for a public key.
- The byte cursor it works through (`Parser`) and the fixed-width big-endian codec are in module `Buffers` (`buffers.dfy`).
- Failure-compatible result types are in module `Wrappers` (`wrappers.dfy`).

Where the code and a stricter reading of its design differ, the model follows the code:
- Any version prefix other than the network's private one decodes as a public key. The public prefix is never checked. This comparison is byte equality of the prefixes only if the network's HD bytes are configured as lower-case hex (see "## Left out").
- `setSignature` and `setKey` accept an index equal to `keyCount`, so one slot past the last key is allowed.
- `hasSignature` refuses indices above `requiredSigs`, not above `keyCount`. The multisig branch of `serialize` loops over the number of stored keys and calls `hasSignature`. So a required multisig fails to serialize once more than `requiredSigs + 1` keys are stored, e.g. a 1-of-3 multisig with all three keys set.
- The multisig branch emits signatures only at indices below the number of stored keys, not below `keyCount`.
- `serialize`'s final "non-standard input type" exception cannot happen in the model. Construction already refuses every other descriptor, and the script type is a closed enumeration. This relies on a pay-to-pubkey descriptor reporting the P2PK type (see "## Left out").

## Model

| member | source | states |
|---|---|---|
| TransactionFactory.Checksig.FromInfo | src/Transaction/Factory/Checksig.php:57-90 | P2PK and P2PKH get keyCount 1; multisig takes keyCount from the descriptor; requiredSigs always comes from the descriptor; any other descriptor is refused; a new accumulator is required and holds no signatures or keys |
| TransactionFactory.Checksig.ReceivesValue | src/Transaction/Factory/Checksig.php:92-101 | a conditional with no value is refused and changes nothing; a false value clears `required`, after which the condition counts as fully signed; a true value leaves the flag as it was |
| TransactionFactory.Checksig.SetRequired | src/Transaction/Factory/Checksig.php:103-109 | the flag becomes the given setting and nothing else changes |
| TransactionFactory.Checksig.IsFullySigned | src/Transaction/Factory/Checksig.php:162-169 | a waived condition is always fully signed; a required one exactly when the number of stored signatures equals requiredSigs, and never with fewer, whatever keyCount is |
| TransactionFactory.Checksig.HasSignature | src/Transaction/Factory/Checksig.php:175-182 | fails exactly for indices above requiredSigs; otherwise tells whether a signature is stored at the index |
| TransactionFactory.Checksig.GetSignature | src/Transaction/Factory/Checksig.php:203-210 | fails exactly when HasSignature fails; returns none (null) exactly when HasSignature reports false; otherwise returns the stored signature |
| TransactionFactory.Checksig.SetSignature | src/Transaction/Factory/Checksig.php:189-197 | fails exactly for idx < 0 or idx > keyCount (upper bound inclusive) and then changes nothing; otherwise stores or overwrites the signature at idx; keys, `required` and other indices are unchanged; repeating the call is a no-op; the index invariant is kept |
| TransactionFactory.Checksig.HasKey | src/Transaction/Factory/Checksig.php:224-227 | true exactly when an entry, possibly null, is stored at the index; there is no range check |
| TransactionFactory.Checksig.GetKey | src/Transaction/Factory/Checksig.php:233-240 | returns a key exactly when a non-null key is stored at the index, and that key |
| TransactionFactory.Checksig.SetKey | src/Transaction/Factory/Checksig.php:247-255 | same [0, keyCount] check as SetSignature; stores or overwrites the key or null at idx; signatures, `required` and other indices are unchanged; repeating the call is a no-op |
| TransactionFactory.Checksig.Serialize | src/Transaction/Factory/Checksig.php:268-304 | P2PK: one empty item when waived, else the serialized signature 0 if present and nothing otherwise. P2PKH: serialized signature 0 and key 0 only when both are stored, and a null key 0 is an error. Multisig waived: requiredSigs + 1 empty items. Multisig required: fails exactly when more than requiredSigs + 1 keys are stored; otherwise an empty dummy item, then the serialized signatures at indices below the stored-key count in ascending order, gaps skipped; at most 1 + count(keys) items |
| TransactionFactory.Checksig.SerializeRequiredMultisig | src/Transaction/Factory/Checksig.php:290-297 | the loop over the stored-key count fails with SignatureQueryOutOfRange exactly when more than requiredSigs + 1 keys are stored, since HasSignature refuses the index requiredSigs + 1; otherwise it yields the empty dummy item followed by SignatureItems below the stored-key count, at most 1 + count(keys) items |
| TransactionFactory.SignedIndices | src/Transaction/Factory/Checksig.php:293-297 | the indices the multisig loop emits: exactly the signed indices below n, strictly ascending, at most n of them |
| TransactionFactory.SignatureItems | src/Transaction/Factory/Checksig.php:292-297 | the multisig loop appends at most one item per index it visits |
| TransactionFactory.SignatureItemsFollowSignedIndices | src/Transaction/Factory/Checksig.php:293-297 | the appended items are, one for one and in the same order, the serialized signatures at SignedIndices: every item is the serialization of a stored signature |
| TransactionFactory.SparseMultisigItems | src/Transaction/Factory/Checksig.php:292-297 | signatures at indices 0 and 2 of three serialize as [sig 0, sig 2]: sparse, ascending, no padding |
| TransactionFactory.SparseMultisigSerializes | src/Transaction/Factory/Checksig.php:285-297 | a required 2-of-3 accumulator with keys 0, 1 and 2 and signatures at 0 and 2 serializes as [empty dummy, sig 0, sig 2] |
| TransactionFactory.OneOfThreeWithAllKeysFails | src/Transaction/Factory/Checksig.php:175-182 | a required 1-of-3 accumulator with all three keys stored fails to serialize, because the loop queries index 2, above requiredSigs |
| TransactionFactory.StoredEntriesBound | src/Transaction/Factory/Checksig.php:189-197 | under the index invariant the setters keep, at most keyCount + 1 signatures and keyCount + 1 keys are ever stored |
| HierarchicalKeySerializer.HexExtendedKeySerializer.Create | src/Bitcoin/Serializer/Key/HierarchicalKey/HexExtendedKeySerializer.php:32-43 | construction fails exactly when the network lacks its HD private or HD public prefix; otherwise the serializer keeps both |
| HierarchicalKeySerializer.HexExtendedKeySerializer.PrefixAndData | src/Bitcoin/Serializer/Key/HierarchicalKey/HexExtendedKeySerializer.php:67-69 | a private key is written with the private prefix and key data 0x00 followed by its 32-byte scalar; any other key with the public prefix and its 33-byte point |
| HierarchicalKeySerializer.HexExtendedKeySerializer.Encode | src/Bitcoin/Serializer/Key/HierarchicalKey/HexExtendedKeySerializer.php:71-83 | the record of a key whose fields fit is exactly 78 bytes long |
| HierarchicalKeySerializer.HexExtendedKeySerializer.EncodeHead | src/Bitcoin/Serializer/Key/HierarchicalKey/HexExtendedKeySerializer.php:72-75 | the record starts with the prefix, then depth as one byte, then the fingerprint as four big-endian bytes |
| HierarchicalKeySerializer.HexExtendedKeySerializer.EncodeTail | src/Bitcoin/Serializer/Key/HierarchicalKey/HexExtendedKeySerializer.php:76-78 | bytes 9-13 hold the child number and bytes 13-45 the chain code, big-endian, and bytes 45-77 the key data |
| HierarchicalKeySerializer.HexExtendedKeySerializer.EncodeLayout | src/Bitcoin/Serializer/Key/HierarchicalKey/HexExtendedKeySerializer.php:71-83 | prefix in bytes 0-3; depth, fingerprint, child number and chain code read back as the key's values from slices 4-5, 5-9, 9-13 and 13-45; key data in bytes 45-77 |
| HierarchicalKeySerializer.HexExtendedKeySerializer.Serialize | src/Bitcoin/Serializer/Key/HierarchicalKey/HexExtendedKeySerializer.php:65-84 | writing the six fields in order through a parser buffer yields exactly the 78-byte record Encode describes |
| HierarchicalKeySerializer.HexExtendedKeySerializer.Decode | src/Bitcoin/Serializer/Key/HierarchicalKey/HexExtendedKeySerializer.php:94-111 | the record starting at offset `at`: fails with ParserOutOfRange exactly when fewer than 78 bytes remain there; the key is private exactly when the record's prefix equals the private prefix, with the 32 key-data bytes after the leading byte; otherwise it is public with all 33 key-data bytes |
| HierarchicalKeySerializer.HexExtendedKeySerializer.DecodedFits | src/Bitcoin/Serializer/Key/HierarchicalKey/HexExtendedKeySerializer.php:96-101 | every decoded depth, fingerprint, child number and chain code fits its field width, so a decoded key can be serialized again |
| HierarchicalKeySerializer.HexExtendedKeySerializer.FromParser | src/Bitcoin/Serializer/Key/HierarchicalKey/HexExtendedKeySerializer.php:91-114 | the result is Decode of the cursor's bytes at its old position; the cursor advances by exactly 78 bytes on success; on failure it advances past the fields that were fully read |
| HierarchicalKeySerializer.Consumed | src/Bitcoin/Serializer/Key/HierarchicalKey/HexExtendedKeySerializer.php:94-102 | the cursor advance of a record read is a field boundary no larger than what is available; it is 78 exactly when a whole record is available |
| HierarchicalKeySerializer.HexExtendedKeySerializer.Parse | src/Bitcoin/Serializer/Key/HierarchicalKey/HexExtendedKeySerializer.php:122-131 | input that is not exactly 78 bytes (156 hex characters) is refused with InvalidExtendedKey before any field is read; a 78-byte input always decodes |
| HierarchicalKeySerializer.HexExtendedKeySerializer.RoundTrip | src/Bitcoin/Serializer/Key/HierarchicalKey/HexExtendedKeySerializer.php:65-111 | if the key's fields fit their widths and the two prefixes differ, decoding its record, whatever follows it, recovers depth, fingerprint, child number, chain code, key material and kind |
| HierarchicalKeySerializer.HexExtendedKeySerializer.EncodeOfDecoded | src/Bitcoin/Serializer/Key/HierarchicalKey/HexExtendedKeySerializer.php:94-109 | a 78-byte record with the private or public prefix, whose private key data starts with 0x00, is re-serialized byte for byte |
| HierarchicalKeySerializer.HexExtendedKeySerializer.SharedPrefixMisreadsPublicKey | src/Bitcoin/Serializer/Key/HierarchicalKey/HexExtendedKeySerializer.php:107-109 | when the two prefixes coincide, a serialized public key decodes as a private key, so RoundTrip needs distinct prefixes |
| Buffers.BigEndian | src/Bitcoin/Serializer/Key/HierarchicalKey/HexExtendedKeySerializer.php:74-77 | a field is written as exactly width bytes |
| Buffers.FromBigEndianOfEncoded | src/Bitcoin/Serializer/Key/HierarchicalKey/HexExtendedKeySerializer.php:74-77 | a value below 256^width reads back from its width-byte big-endian field |
| Buffers.FromBigEndianBound | src/Bitcoin/Serializer/Key/HierarchicalKey/HexExtendedKeySerializer.php:97-100 | a big-endian field of n bytes reads as a value below 256^n |
| Buffers.BigEndianOfDecoded | src/Bitcoin/Serializer/Key/HierarchicalKey/HexExtendedKeySerializer.php:97-100 | re-encoding a decoded field at its width gives back its bytes |
| Buffers.Parser.ReadBytes | src/Bitcoin/Serializer/Key/HierarchicalKey/HexExtendedKeySerializer.php:96-101 | returns the next n bytes and advances by n when they are available; otherwise fails and leaves the cursor where it was |
| Buffers.Parser.WriteInt | src/Bitcoin/Serializer/Key/HierarchicalKey/HexExtendedKeySerializer.php:74-77 | appends the value as an n-byte big-endian field and changes nothing else |
| Buffers.Parser.WriteBytes | src/Bitcoin/Serializer/Key/HierarchicalKey/HexExtendedKeySerializer.php:73-78 | appends exactly the given n raw bytes |

## Left out

- `Parser` and `Buffer` (the byte cursor and buffer library) are not part of this model. `Buffers.Parser` models only what the serializer uses. A read that runs out fails without moving the cursor. A write appends a field of exactly the given width.
- HexExtendedKeySerializer.Serialize requires every field to fit its width (`HierarchicalKey.Fits`). What the buffer library does with an oversized depth, fingerprint, child number or chain code is not modelled.
- HexExtendedKeySerializer.Parse takes bytes, not a hex string. The 156-character check becomes a 78-byte check. Hex decoding, and rejection of non-hex characters, are not modelled.
- Elliptic-curve work stays abstract. `PrivateKeyFactory::fromHex` and `PublicKeyFactory::fromHex` become the `PrivateKey` and `PublicKey` constructors wrapping the key material. Scalar and point validity checks are not modelled. So are the checks of the `HierarchicalKey` constructor, and the `ecAdapter` the serializer carries.
- The transaction-signature and public-key serializers are function values. Their encodings are not modelled.
- Checksig.Serialize, P2PKH branch: a stored null key 0 is passed to the public-key serializer, whose parameter is typed as a public key. The model returns the error `NullPublicKey` there, standing for the type error PHP raises.
- The debug `echo` lines in the multisig branch of `serialize` are console output with no effect on the result.
- `disable()` is a private method whose loop has an empty body. It has no effect.
- `getInfo`, `getSolution`, `getType`, `getRequiredSigs`, `isRequired`, `getSignatures`, `getKeys`, `getEcAdapter` and `getNetwork` only return a field or forward to the descriptor. The model's fields are read directly.
- The run-time `is_object` and `is_bool` argument checks are discharged by Dafny's types.
- `Conditional` is reduced to its optional boolean value (`Option<bool>`). Only its `hasValue` and `getValue` are used here.
- Descriptor counts are natural numbers. So `hasSignature(0)` in the P2PK and P2PKH branches cannot fail.
- The input-signer orchestration (sighash computation, signing, verification, step sequencing) is only an interface in this repository. It is not modelled.
- HexExtendedKeySerializer.Decode assumes the network's HD private and public bytes are configured as the lower-case, 8-hex-digit form of the four prefix bytes. The source compares the configured string with the lower-case hex of the bytes read, using PHP's loose `==`. That comparison is case-sensitive, and numeric-looking strings compare as numbers (so "00000001" equals "1e000000"). Writing decodes the configured string regardless of case. So a network configured as "0488ADE4" writes private keys with the right bytes but reads them back as public keys. Under the assumption, the string comparison is byte equality of prefixes, which is what the model compares. The upper-case mismatch and the numeric coincidences are not modelled.
- FromBigEndian stands for the buffer library's `serialize('int')` read of a big-endian field. The buffer library is not part of this model.
- Checksig.FromInfo gives a pay-to-pubkey descriptor the script type P2PK. The source takes that type from the descriptor's `getType()`, whose class is not part of this model. The claim that `serialize`'s "non-standard input type" exception cannot happen depends on `getType()` returning P2PK there.

# Verified model of the enbox core

A Dafny model of the parts of the enbox Rust core where state, wire formats and key material meet, with proofs
about every input, every run or every reachable state. Four areas are covered.

**The `did:dht` codec and gateway.** A DID document becomes DNS records and back. The model follows the encoder and
the decoder record by record, including their errors, and proves that decoding an encoded document gives an explicit
normal form. Around it are the TXT segmentation on UTF-8 boundaries, the BEP 44 framing, the sequence numbers, and
publishing and resolving over an arbitrary transport.

**AES key wrap and the vault's tokens.** The key wrap of sections 2.2.1 and 2.2.2 of RFC 3394 as in-place loops over
arrays, proved equal to a register machine and proved a two-sided inverse for any bijective block cipher. On top of it
the compact tokens of section 7.1 of RFC 7516 with the password wrap of section 4.8 of RFC 7518.

**The password vault.** A class over a store of secrets, each method proved to take one step of a state machine. A run
is any sequence of calls and reopenings; every call comes with an arbitrary choice of which reads, background tasks and
commits fail, and a commit may fail after it was applied. A kill in the middle of a call is that call with a refused or
unreported commit, followed by a reopening.

**Protocol keys.** Hierarchical derivation, encryption injection into a tree of rule sets, the keys handed to delegates,
and the restore flow that installs protocols on two endpoints that may fail at any point.

## How to read it

- `Wrappers`, `Text`, `Bytes`, `Utf8`, `Base64Url` and `BTree` are the shared base: texts, bytes, UTF-8, strict unpadded
  base64url and the iteration order of ordered maps. They are concrete definitions with their inverses proved.
- `DidDocument`, `DhtRecords`, `DhtEncode`, `DhtDecode` and `DhtNormal` define the codec and the normal form.
  `DhtAccept` says which documents are accepted, `DhtWire` what their packets look like and `DhtRead` what any packet
  decodes to, in terms of documents and record properties rather than of the encoder and the decoder; how properties are
  read from a text is itself stated in `DhtRead`. `DhtRoundTrip`, `DhtRelationships` and `DhtTheorems` prove the round
  trip; `DhtFixpoint`, `DhtDocuments` and `DhtRepublish` prove what follows from it; `DhtIdentity` shows which documents
  there always are and `DhtExamples` on which the codec fails; `DhtLoops` holds the loops; `DhtGateway` publishes and
  resolves, and `DhtInstance` is a toy packet format that satisfies its hypotheses.
- `AesKeyWrap` defines the key wrap and `Rfc3394` proves it to be the standard's. `VaultJwe` defines the tokens and
  `VaultTokens` says what they contain and which open; `Vault` the steps; `VaultRuns` the invariant; `VaultTheorems`,
  `VaultBackup` and `VaultLifecycle` the results; `VaultService` the class; `VaultInstance` a toy set of primitives that
  satisfies every hypothesis. Both toys are built from the prefix-free code of `JsonCode`.
- `KeyDerivation`, `Protocols`, `Injection`, `Delegates` and `RestoreFlow` follow one another in that order.

Code the repository calls but does not contain is a record of function values: curves, thumbprints, URI and DNS name
syntax (`DidDocument.Env`), DNS packets and signatures (`DhtGateway.World`), the block cipher (`AesKeyWrap.Cipher`),
PBKDF2, GCM and JSON text (`VaultJwe.Crypto`), HKDF (`KeyDerivation.Kdf`). Lemmas that need something of these functions
say so:

- `AesKeyWrap.Bijective`: the block cipher has an inverse for each key.
- `DidDocument.SoundCurves`: compressing and decompressing a point are stable.
- `DhtGateway.SoundPackets`: a packet that was built parses to the same text records. `DhtInstance` has one that does.
- `VaultJwe.Sound`: sealing adds a 16-byte tag and opening undoes it; JSON and DID values survive being written and read.
- `VaultRuns.Committing`: no wrapped key opens to two keys and no DID token decrypts under two keys. Real AES key wrap and
  GCM give this only up to negligible probability. It is what makes "the stored key" one key. `VaultInstance` proves that
  it is consistent with `VaultJwe.Sound`.

Randomness, the clock, generated phrases and the DID provider's answers are inputs of the call that uses them.

## What the proofs found

- The encoder accepts a service whose only endpoint is the empty text, and an empty controller list; the decoder rejects
  both (`DhtExamples.EmptyEndpointLost`, `DhtExamples.EmptyControllersLost`; exact condition `DhtDocuments.ReadableIff`).
- The identity method `#0` is compared with the DID only by its bytes, so it may be an X25519 key
  (`DhtExamples.IdentityAsX25519`; exact condition `DhtDocuments.IdentityIsRecordZero`).
- A method named by its thumbprint but written with an unusual curve or key type name comes back under another id, and two
  such methods can come back under one id (`DhtExamples.OtherSpellingRenamed`, `DhtExamples.SpelledTwiceMerged`; exact
  conditions `DhtDocuments.MethodKeepsId`, `DhtDocuments.RelationshipsKeepTargets`, `DhtDocuments.TargetsUnambiguousIff`).
- A document that was published and read cannot always be published again, and a decoded packet is not always a fixpoint of
  publishing (`DhtExamples.TwoTypesNotRepublished`, `DhtExamples.EndpointPropertyNotFixed`,
  `DhtExamples.RecordOrderNotFixed`; exact conditions `DhtRepublish.RepublishableIff`,
  `DhtRepublish.DecodeAfterEncodeIdempotent`, `DhtFixpoint.DecoderFixpoint`).
- The documentation of `rewrap_cek` says that the content type is echoed; the code always writes `text/plain`
  (`VaultJwe.RewrapRoundTrip`). The model follows the code.
- A backup stores the status from before it was recorded, so restoring it brings back the time of the backup before it,
  when there was one (`VaultBackup.BackupTimeGoesBack`; exact state `VaultBackup.RestoreAnywhere`).
- A definition that requires encryption but consists of references is reported as encrypted when it is installed and as
  not encrypted by every later run (`RestoreFlow.RerunReportsEncryption`).
- A rule name with a slash in it can be injected but not named in a delegate's scope (`Protocols.PathReadBackIff`).

## Model

| member | source | states |
|---|---|---|
| `DhtTheorems.EncodeThenDecode` | crates/did-dht/src/encode.rs:57-260 | For every document the encoder accepts, decoding its answers gives exactly the document's normal form with the same types, or exactly the error the normal form predicts; gateway records make no difference. |
| `DhtAccept.AcceptedIff` | crates/did-dht/src/encode.rs:57-260 | The encoder accepts a document if and only if it is writable, part by part and by constructor: identity key, no unknown members, clean texts, distinct method and service ids, registered keys of the right size, `#0` with the DID's bytes and a represented controller, references that lead to methods, `#0` in the four mandatory lists, gateways with hosts, names for the DNS. |
| `DhtAccept.MethodWritableIff` | crates/did-dht/src/encode.rs:274-368 | One method is accepted if and only if its id is the DID with a fresh non-empty clean fragment, its only property is a JWK of a registered curve with 32-byte coordinates and a thumbprint, and its algorithm and controller are clean. |
| `DhtAccept.ServiceWritableIff` | crates/did-dht/src/encode.rs:433-528 | One service is accepted if and only if its id, single type, endpoints and property names and values are clean and non-empty where they must be, and no property takes one of the three wire names. |
| `DhtWire.WireFormat` | crates/did-dht/src/encode.rs:57-260 | The packet of every accepted document, spelled out: which text records there are, in which order and under which names, the exact properties of each (registered key type and bytes, id, algorithm and controller where they cannot be inferred, services, the root, types), and one NS record per domain gateway. |
| `DhtWire.RootListsRecords` | crates/did-dht/src/encode.rs:166-226 | There is exactly one root record; its version is `0`, `vm` lists the ids of all method records of the packet in order, and `svc` is there if and only if there are service records and lists theirs. |
| `DhtRead.DecodesIff` | crates/did-dht/src/codec.rs:26-92 | For every packet, written by whomever: it decodes to a document and types if and only if the method is `dht`, every text is UTF-8, every record of a known kind can be read, the document and types are what the records say kind by kind, and the identifiers are valid. |
| `DhtRead.RecordsIff` | crates/did-dht/src/codec.rs:94-116 | The records of a packet are exactly its text answers in order, each with the UTF-8 text its strings spell and the first label of its name without the underscore. |
| `DhtRead.PropertiesIff` | crates/did-dht/src/codec.rs:118-128 | For every text: a property is there if and only if some piece between semicolons starts with its name before an equals sign, and its value is what follows in the last such piece. |
| `DhtRead.MethodReadIff` | crates/did-dht/src/codec.rs:130-225 | A method record decodes to exactly one method, if any: the key its type and bytes spell (point on its curve, 32 or 33 bytes), `#0` for record `k0`, else `id=` or the thumbprint, with the usual algorithm and controller where none is given. |
| `DhtRead.ServiceReadIff` | crates/did-dht/src/codec.rs:228-261 | A service record decodes to exactly one service, if any: non-empty id, type and endpoint, endpoints as a list, other properties as lists if they hold a comma, reserved names taking their place. |
| `DhtRead.NumbersReadIff` | crates/did-dht/src/codec.rs:263-276 | A type record decodes to exactly the numbers between its commas, if each is a 64-bit number. |
| `DhtRead.UnknownRecordIgnored` | crates/did-dht/src/codec.rs:49-77 | A record of no known kind can hold anything and changes nothing. |
| `DhtRoundTrip.MethodRoundTrip` | crates/did-dht/src/encode.rs:274-368 | One verification method: its record decodes to the normal method (thumbprint key id, default algorithm filled in, id rebuilt from `id=` or the thumbprint), or to the same error. |
| `DhtRoundTrip.ServiceRoundTrip` | crates/did-dht/src/encode.rs:433-528 | One service: its record decodes to the normal service (endpoints as a list, one-element arrays as scalars, a lone empty endpoint lost). |
| `DhtRelationships.RelationshipsReadBack` | crates/did-dht/src/codec.rs:278-302 | The root record written for any five relationship lists is read back as the five lists of method ids, empty lists absent. |
| `DhtDocuments.ReadableIff` | crates/did-dht/src/encode.rs:57-260 | An accepted document reads back if and only if it is readable: no empty controller list, no lone empty endpoint, keys on their curve, and valid ids under the fragments the methods are read back under. |
| `DhtDocuments.EmptyTextIsLost` | crates/did-dht/src/encode.rs:433-556 | Two failing families: every accepted document with a service whose only endpoint is the empty text, or with an empty controller list where the empty text is no DID, is rejected by the decoder. `DhtExamples` gives one of each. |
| `DhtDocuments.KeyReadableIff` | crates/did-dht/src/codec.rs:130-225 | The record written for an accepted method decodes if and only if its key bytes are a point on their curve and the key rebuilt from them has a thumbprint. |
| `DhtDocuments.MethodKeepsId` | crates/did-dht/src/encode.rs:136-150 | For every accepted method that can be read, the id read from its record is the DID with the rebuilt thumbprint where the method is named by its thumbprint, else its own; it is the original id if and only if the method is the identity, has a name of its own, or the rebuilt thumbprint is the same. |
| `DhtDocuments.CanonicalMethodKept` | crates/did-dht/src/encode.rs:274-368 | The record of a canonically written method decodes to the method itself, id, kind, controller and key included, with the thumbprint as its key id, the default algorithm where it had none, and no other property. |
| `DhtDocuments.RelationshipsKeepTargets` | crates/did-dht/src/encode.rs:171-223 | For every published document that reads back and each of the five lists: the list reads back as the ids it named, in order with repeats, if and only if every method it names keeps its name. |
| `DhtDocuments.TargetsUnambiguousIff` | crates/did-dht/src/codec.rs:278-302 | Looking an entry up after reading finds the same method as before if and only if no earlier method comes back under its name; the methods read have distinct ids if and only if no two come back under one name. |
| `DhtDocuments.IdentityIsRecordZero` | crates/did-dht/src/encode.rs:83-116 | Record `k0` always holds the DID's identity key bytes and is named in each of the four mandatory lists; it is of type 0 if and only if `#0` names Ed25519, of type 3 if and only if it names X25519, and no other curve is possible. |
| `DhtFixpoint.DecodedDocumentShape` | crates/did-dht/src/codec.rs:26-92 | Whatever records a packet holds, a decoded document has the decoder's shape: canonical keys, thumbprint key ids, relationship lists that refer only to methods of the document, non-empty types. |
| `DhtFixpoint.DecoderFixpoint` | crates/did-dht/src/encode.rs:83-99 | For every packet that decodes to a publishable document, encoding and decoding again changes nothing if and only if `#0` was read first and no endpoint was read as a bare string. |
| `DhtFixpoint.NormalLeadsWithIdentity` | crates/did-dht/src/encode.rs:83-99 | Whatever the order of the methods, the normal form lists `#0` first. |
| `DhtRepublish.DecodeAfterEncodeIdempotent` | crates/did-dht/src/encode.rs:57-260 | For every published document that reads back: publishing what was read succeeds and reads back unchanged if and only if the names and types can be written again and a service property called `serviceEndpoint` lists at least two strings. |
| `DhtRepublish.CanonicalIdempotent` | crates/did-dht/src/encode.rs:57-260 | For documents with canonically written methods only the two reserved property names can stand in the way of republishing unchanged, in both directions. |
| `DhtRepublish.RepublishableIff` | crates/did-dht/src/encode.rs:57-260 | A document that was read back can be published again under the same condition on the document first published, names and hosts of the second packet included. |
| `DhtRepublish.NormalEncodesIff` | crates/did-dht/src/encode.rs:57-260 | The normal form of an accepted document can be planned by the encoder if and only if every method comes back under a non-empty fragment without delimiters, no two under the same one, and a service property called `type` is one non-empty string. |
| `DhtIdentity.EveryIdentityPublishes` | crates/did-dht/src/encode.rs:57-260 | For every identity key, type list and usable gateways, the smallest document of the identifier is accepted wherever the record names are DNS names, and reads back wherever its identifiers are valid. |
| `DhtExamples.HypothesesHold` | crates/did-dht/src/encode.rs:57-260 | All hypotheses of the examples below hold together for an explicit toy environment. |
| `DhtExamples.EmptyEndpointLost` | crates/did-dht/src/encode.rs:433-556 | For every identity: a service whose only endpoint is the empty text is published and cannot be read. |
| `DhtExamples.EmptyControllersLost` | crates/did-dht/src/encode.rs:530-554 | For every identity: a document with an empty controller list is published and cannot be read. |
| `DhtExamples.TwoTypesNotRepublished` | crates/did-dht/src/codec.rs:228-261 | For every identity: a service with a property `type` of two strings is published and read, and what was read cannot be published. |
| `DhtExamples.EndpointPropertyNotFixed` | crates/did-dht/src/codec.rs:228-261 | For every identity: a packet with `serviceEndpoint=x` in a service record decodes to a publishable document whose own packet decodes to another document. |
| `DhtExamples.RecordOrderNotFixed` | crates/did-dht/src/encode.rs:83-99 | For every identity and second key: a packet with `k1` before `k0` decodes to a publishable document whose own packet decodes to another document. |
| `DhtExamples.IdentityAsX25519` | crates/did-dht/src/encode.rs:83-99 | For every identity key: a document that spells it as an X25519 key is accepted, with type 3 in record `k0`. |
| `DhtExamples.OtherSpellingRenamed` | crates/did-dht/src/encode.rs:274-368 | A point named by the thumbprint of its `secp256r1` spelling is published and read back under the thumbprint of its `P-256` spelling. |
| `DhtExamples.SpelledTwiceMerged` | crates/did-dht/src/encode.rs:136-150 | One point listed under both spellings is published, read back as two methods of one id, changes which method the agreement list means, and cannot be published again. |
| `DhtLoops.EncodeVerificationMethods` | crates/did-dht/src/encode.rs:262-272 | The method loop with its growing set of fragments computes the method list, duplicates rejected at the same place. |
| `DhtLoops.EncodeExtras` | crates/did-dht/src/encode.rs:493-527 | The property loop of a service, in key order, computes the extra pairs or stops at the first property that cannot be written. |
| `DhtLoops.EncodeServices` | crates/did-dht/src/encode.rs:152-165 | The service loop, with its set of ids seen, computes the service records or stops at the first duplicate or unwritable service. |
| `DhtLoops.EncodeRelationships` | crates/did-dht/src/encode.rs:206-220 | The relationship loop computes the list pairs or stops at the first dangling reference. |
| `DhtLoops.EncodeGateways` | crates/did-dht/src/encode.rs:235-240 | The gateway loop keeps domain hosts, skips addresses and stops at a gateway without a host. |
| `DhtLoops.PushTexts` | crates/did-dht/src/encode.rs:570-590 | The record loop cuts each text into segments and appends one answer per text, in order, or stops at the first name that is not a DNS name. |
| `DhtLoops.PushHosts` | crates/did-dht/src/encode.rs:242-255 | The host loop appends one NS answer per host, in order, or stops at the first host that is not a DNS name. |
| `DhtLoops.EncodeDocument` | crates/did-dht/src/encode.rs:57-260 | The whole encoder up to the answers, step by step with its early returns, computes the specified answers or the specified error, names that are not DNS names included. |
| `DhtLoops.ReadTxtRecords` | crates/did-dht/src/codec.rs:94-116 | The answer loop joins the segments of each text answer, skips every other answer and stops at bytes that are not UTF-8. |
| `DhtLoops.ApplyRootRecords` | crates/did-dht/src/codec.rs:84-86 | The root records are applied in order, later lists replacing earlier ones. |
| `DhtLoops.DecodeDocument` | crates/did-dht/src/codec.rs:26-92 | The whole decoder, with its record loop, computes the specified document and types or the specified error. |
| `DhtRecords.PropertiesOfPairs` | crates/did-dht/src/codec.rs:118-128 | A record text built from pairs with safe keys and values parses back to exactly the map of those pairs. |
| `Segments.CharBoundarySegments` | crates/did-dht/src/encode.rs:592-607 | The cutting loop ends on every text and computes the specified segments. |
| `Segments.SegmentsSpellValue` | crates/did-dht/src/encode.rs:592-607 | For every text: the segments concatenate to its bytes, none is longer than 255 bytes or splits a character, and all but the last have at least 252. |
| `Segments.ReassembleSegments` | crates/did-dht/src/codec.rs:94-116 | Joining the segments and decoding the bytes returns the text. |
| `Utf8.Examples` | crates/did-dht/src/encode.rs:592-607 | The UTF-8 bytes of one character of each length. |
| `Base64Url.Examples` | crates/did-dht/src/encode.rs:617-622 | The examples of section 10 of RFC 4648. |
| `Base64Url.Alphabet` | crates/did-dht/src/encode.rs:617-622 | The alphabet of section 5 of RFC 4648. |
| `Bep44.ParseRelayBody` | crates/did-dht/src/publish.rs:79-85 | A relay body is the 64 bytes of the signature, the sequence number in eight bytes and the value; parsing it returns the message if the value has at most 1000 bytes, and otherwise reports the size. |
| `Bep44.RelayBodyOfParsed` | crates/did-dht/src/bep44.rs:42-66 | Parsing accepts exactly the payloads of 72 to 1072 bytes, takes signature, sequence number and value from their places, and rebuilding the body gives the payload back. |
| `Bep44.SigningPayloadInjective` | crates/did-dht/src/bep44.rs:68-75 | The signing preimage determines both the sequence number and the value. |
| `Bep44.SigningPayloadIsBencoded` | crates/did-dht/src/bep44.rs:68-75 | The signing preimage is the bencoded dictionary of `seq` and `v` without the letters around it. |
| `Bep44.SigningPayloadExample` | crates/did-dht/src/bep44.rs:68-75 | The example of BEP 44: sequence 1 and `Hello World!`. |
| `Sequence.NextSequenceIsLeast` | crates/did-dht/src/sequence.rs:11-29 | The next number is the least 64-bit number not before the clock and above the previous one; it fails exactly before the epoch or when there is none. |
| `Sequence.RunStrictlyIncreases` | crates/did-dht/src/sequence.rs:11-29 | Over any run of publications, whatever the clock does and whichever of them fail: each number is the least admissible one for its clock above the last that was given out, so the numbers strictly increase, and one is missing exactly before the epoch or when there is none. |
| `DhtGateway.PublishThenResolve` | crates/did-dht/src/gateway.rs:75-159 | Whatever publishing sends, a resolver that gets it back yields the published sequence and types and the document's normal form; no body exceeds 1072 bytes. |
| `DhtGateway.PublishOnlyVerified` | crates/did-dht/src/gateway.rs:110-159 | Publishing sends a body only if it holds the sequence number, the encoded document and a signature that the Ed25519 library verifies under the DID's own key over their preimage; it then succeeds for exactly the 2xx answers and reports every other status as a rejection with the sequence number. |
| `DhtGateway.ResolveOnlySigned` | crates/did-dht/src/gateway.rs:75-108 | A resolved document is the decoding of bytes that the Ed25519 library verifies under the DID's identity key together with that sequence, and no other sequence and value have that preimage. |
| `DhtGateway.ResolveCases` | crates/did-dht/src/gateway.rs:75-108 | What any answer of a relay resolves to: not found unless its status is 2xx, a length error unless the body has 72 to 1072 bytes, an invalid signature if the library does not verify it, and else what the decoder says. |
| `DhtGateway.SignedIff` | crates/did-dht/src/publish.rs:35-68 | A value is signed for sending if and only if it has at most 1000 bytes, the signer answers, with 64 bytes, and they verify under the DID's key; each other case has its own error. |
| `DhtGateway.UnverifiedNotSent` | crates/did-dht/src/publish.rs:35-68 | With a signature that does not verify, publishing fails whatever the relay would answer, and nothing is sent. |
| `DhtInstance.HypothesesHold` | crates/did-dht/src/gateway.rs:75-159 | Packets that keep their records exist: over an explicit format that writes every list of answers, for all types and sequence numbers, a document is published and a relay that returns what it was sent resolves to its normal form. |
| `AesKeyWrap.UnwrapWrap` | crates/dwn-rs-core/src/encryption/aes_kw.rs:9-88 | Wrapping works on exactly the aligned keys of at least 16 bytes under a 32-byte key; the result is 8 bytes longer and unwraps to the key. |
| `AesKeyWrap.WrapUnwrap` | crates/dwn-rs-core/src/encryption/aes_kw.rs:46-88 | Whatever unwraps is the exact wrap of the key it returns. |
| `AesKeyWrap.UnwrapAcceptsExactlyWraps` | crates/dwn-rs-core/src/encryption/aes_kw.rs:46-88 | Unwrapping accepts a byte string if and only if it is the wrap of some key. |
| `Rfc3394.WrapIsShiftRegister` | crates/dwn-rs-core/src/encryption/aes_kw.rs:9-44 | The wrap of n blocks is the register and the blocks after 6n steps of the shift register of section 2.2.1 of RFC 3394, started from eight bytes `a6`: step t enciphers the register with the first block, mixes the 64-bit number t in and shifts. |
| `Rfc3394.XorCounterIsXor` | crates/dwn-rs-core/src/encryption/aes_kw.rs:90-94 | Mixing the counter in byte by byte is the exclusive or of the two 64-bit numbers. |
| `Rfc3394.StepNumbersCount` | crates/dwn-rs-core/src/encryption/aes_kw.rs:21-36 | At an input: under the cipher that changes nothing, every two-block key is kept and the register ends in `aa`, the exclusive or of `a6` with the numbers 1 to 12. |
| `AesKeyWrap.XorCounterInPlace` | crates/dwn-rs-core/src/encryption/aes_kw.rs:90-94 | The in-place loop mixes the big-endian counter into the register; `Rfc3394.XorCounterIsXor` says what that is. |
| `AesKeyWrap.WrapRound` | crates/dwn-rs-core/src/encryption/aes_kw.rs:21-36 | One in-place round over the block array is one round of the register machine. |
| `AesKeyWrap.UnwrapRound` | crates/dwn-rs-core/src/encryption/aes_kw.rs:62-79 | One in-place backward round over the block array is one backward round of the register machine. |
| `AesKeyWrap.WrapKey` | crates/dwn-rs-core/src/encryption/aes_kw.rs:9-44 | Six in-place rounds compute the specified wrap, with the same errors; `Rfc3394.WrapIsShiftRegister` says what that is. |
| `AesKeyWrap.UnwrapKey` | crates/dwn-rs-core/src/encryption/aes_kw.rs:46-88 | Six backward rounds and the integrity check compute the specified unwrap, with the same errors. |
| `VaultJwe.WrapFourBlocks` | crates/dwn-rs-agent/src/agent/vault_jwe.rs:558-584 | The vault's own loops over four blocks, with the counter `4j + i`, compute the general wrap of every 32-byte key. |
| `VaultJwe.UnwrapFourBlockRound` | crates/dwn-rs-agent/src/agent/vault_jwe.rs:586-618 | One backward round of the vault's unwrap, in place over four blocks with the counter `4j + i` and the register masked in a copy, is one round of the register machine. |
| `VaultJwe.UnwrapFourBlocks` | crates/dwn-rs-agent/src/agent/vault_jwe.rs:586-618 | The vault's own backward rounds compute the general unwrap on 40 bytes, reject every other length as corrupt and a failed check as authentication. |
| `VaultJwe.SplitOfCompact` | crates/dwn-rs-agent/src/agent/vault_jwe.rs:373-422 | Splitting a compact token returns the parts it was built from. |
| `VaultJwe.CompactOfSplit` | crates/dwn-rs-agent/src/agent/vault_jwe.rs:373-422 | A token has one spelling: whatever splits is the compact form of its parts. |
| `VaultJwe.CekRoundTrip` | crates/dwn-rs-agent/src/agent/vault_jwe.rs:148-164 | Wrapping and unwrapping a content key under the same password returns the key, salt and work factor, for any salt and any positive work factor. |
| `VaultJwe.RewrapRoundTrip` | crates/dwn-rs-agent/src/agent/vault_jwe.rs:166-179 | A re-wrapped token opens under the new password with key, salt and work factor unchanged; its content type survives if and only if it was `text/plain`. |
| `VaultJwe.RewrapChangesContentType` | crates/dwn-rs-agent/src/agent/vault_jwe.rs:166-179 | Every token of another content type loses it on a re-wrap. |
| `VaultJwe.OpenedToken` | crates/dwn-rs-agent/src/agent/vault_jwe.rs:227-271 | What it takes to open: the key segment is the wrap of a key under PBKDF2 of the password with the algorithm name, a zero byte and the token's own salt and work factor, and that key opens the payload. |
| `VaultTokens.OpensIff` | crates/dwn-rs-agent/src/agent/vault_jwe.rs:227-271 | A token opens to a key, salt, work factor and content type if and only if it has five segments, names PBES2 and AES-GCM, a work factor from 1 to the largest 32-bit number, a salt and a key segment; that segment is the wrap of some key under PBKDF2 of the password with the algorithm name, a zero byte and the salt; and that key opens, with the header text as associated data, the JWK of the key. |
| `VaultTokens.WrongPasswordIff` | crates/dwn-rs-agent/src/agent/vault_jwe.rs:227-271 | A password is reported wrong if and only if the token says all that and has 40 key bytes, but no key wrapped in them opens the payload. |
| `VaultTokens.TokenFormat` | crates/dwn-rs-agent/src/agent/vault_jwe.rs:184-220 | A fresh token, member by member: header, key segment, nonce, sealed payload and the JWK in it. |
| `VaultTokens.DirectFormat` | crates/dwn-rs-agent/src/agent/vault_jwe.rs:327-344 | A fresh direct token, member by member. |
| `VaultTokens.DirectOpensIff` | crates/dwn-rs-agent/src/agent/vault_jwe.rs:346-371 | A direct token opens if and only if it has no key segment, names direct encryption and AES-GCM, and its payload opens under the key with the header text as associated data. |
| `VaultJwe.DirectRoundTrip` | crates/dwn-rs-agent/src/agent/vault_jwe.rs:329-363 | Direct encryption returns every plaintext, the empty one included, and a direct token never passes for a wrapped key under any password. |
| `VaultJwe.DidRoundTrip` | crates/dwn-rs-agent/src/agent/vault_jwe.rs:275-311 | Every DID encrypts, as a direct token of type `json`, and decrypts again exactly when it carries the keys an agent needs. |
| `VaultJwe.WrappedKeyIsNotDirect` | crates/dwn-rs-agent/src/agent/vault_jwe.rs:347-363 | A wrapped key never passes for a direct token under any key. |
| `VaultJwe.StatusRoundTrip` | crates/dwn-rs-agent/src/agent/vault_jwe.rs:57-95 | Every status is read back from its own encoding. |
| `VaultJwe.StatusAccepted` | crates/dwn-rs-agent/src/agent/vault_jwe.rs:57-86 | An entry parses to a status if and only if it is JSON with the boolean `initialized` and both timestamps, each null or a string. |
| `VaultService.SecretStore.Apply` | crates/dwn-rs-agent/src/agent/memory.rs:55-74 | The write loop applies the whole batch or nothing, and reports success only when it was applied. |
| `VaultService.IdentityVault.ReadStatusLockingOnError` | crates/dwn-rs-agent/src/agent/vault.rs:503-514 | Reads the status, and drops the key in memory if that fails. |
| `VaultService.IdentityVault.Initialize` | crates/dwn-rs-agent/src/agent/vault.rs:124-199 | The new store, key and result are those of the initialize step. |
| `VaultService.IdentityVault.Unlock` | crates/dwn-rs-agent/src/agent/vault.rs:202-220 | The new store, key and result are those of the unlock step. |
| `VaultService.IdentityVault.Lock` | crates/dwn-rs-agent/src/agent/vault.rs:223-231 | The new key and result are those of the lock step; `VaultLifecycle.LockDropsKey` says what that is. |
| `VaultService.IdentityVault.ChangePassword` | crates/dwn-rs-agent/src/agent/vault.rs:245-284 | The new store, key and result are those of the password-change step. |
| `VaultService.IdentityVault.ResetPasswordWithRecoveryPhrase` | crates/dwn-rs-agent/src/agent/vault.rs:284-352 | The new store, key and result are those of the phrase-reset step. |
| `VaultService.IdentityVault.Backup` | crates/dwn-rs-agent/src/agent/vault.rs:355-398 | The new store and the exported blob are those of the backup step. |
| `VaultService.IdentityVault.RestoreJson` | crates/dwn-rs-agent/src/agent/vault.rs:412-476 | The new store, key and result are those of the restore step. |
| `VaultRuns.NextKeeps` | crates/dwn-rs-agent/src/agent/vault.rs:124-476 | Every call, whatever fails in it, and every reopening keeps the store empty or complete around one key with any key in memory equal to it; only a restore changes that key. |
| `VaultTheorems.EveryRunConsistent` | crates/dwn-rs-agent/src/agent/vault.rs:124-476 | In every run from a store without vault entries, with failure or kill anywhere: none or all three entries; when all, the status is initialized, the wrapped key opens under some password and decrypts the stored DID, and a key in memory is that key. |
| `VaultTheorems.KeyNeverChanges` | crates/dwn-rs-agent/src/agent/vault.rs:202-398 | No run without a restore changes the stored content key. |
| `VaultTheorems.DataSurvives` | crates/dwn-rs-agent/src/agent/vault.rs:479-490 | Data encrypted in any unlocked session decrypts in every later one, across any run without a restore. |
| `VaultTheorems.FailuresLock` | crates/dwn-rs-agent/src/agent/vault.rs:202-352 | A failed unlock, reset or restore ends locked; a failed password change ends locked unless the new password was blank, when nothing changed; success ends unlocked. |
| `VaultLifecycle.LockDropsKey` | crates/dwn-rs-agent/src/agent/vault.rs:223-231 | In every reachable state a lock leaves the store and drops the key; where the status can be read it succeeds if and only if the store holds a key. |
| `VaultLifecycle.LockedUntilUnlocked` | crates/dwn-rs-agent/src/agent/vault.rs:223-242 | After a lock and any run in which no unlock, initialize, password change, reset or restore succeeds, reading the DID, encrypting and decrypting all answer that the vault is locked, and a backup fails. |
| `VaultLifecycle.KeyInMemory` | crates/dwn-rs-agent/src/agent/vault.rs:124-476 | Which key every call leaves in memory: none after a lock, the same after a backup, else after success the key the store then holds; after a failure what there was, or none, operation by operation. |
| `VaultLifecycle.UnreadableStatusLocks` | crates/dwn-rs-agent/src/agent/vault.rs:503-514 | Every call fails and drops the key when the status cannot be read. |
| `VaultLifecycle.InitializeIff` | crates/dwn-rs-agent/src/agent/vault.rs:124-199 | Where nothing outside fails: which of its seven errors initialize gives, and else the three entries it writes under their names, with the phrase's key and salt and the work factor, and the identity it returns. |
| `VaultLifecycle.BlankIff` | crates/dwn-rs-agent/src/agent/vault.rs:133-137 | Blank means nothing but Unicode white space, the 25 characters listed. |
| `VaultLifecycle.ChangePasswordIff` | crates/dwn-rs-agent/src/agent/vault.rs:245-284 | Where nothing outside fails, the password changes if and only if the old one opens the stored key and the new one is not blank; each error has its exact condition. |
| `VaultLifecycle.ResetIff` | crates/dwn-rs-agent/src/agent/vault.rs:284-352 | Where nothing outside fails, a phrase resets the password if and only if it derives the key the store holds, the provider rebuilds the stored DID's URI, the password is not blank and the work factor is positive; the new token has the phrase's salt. |
| `VaultLifecycle.RestoreIff` | crates/dwn-rs-agent/src/agent/vault.rs:412-476 | Where nothing outside fails, a restore succeeds if and only if the blob has the members it must, its status says initialized, and the password opens its key, which decrypts its DID; the state is then exactly the blob's tokens and the merged status. |
| `VaultLifecycle.PaddedIff` | crates/dwn-rs-agent/src/agent/vault.rs:561-566 | Backup data decodes to some bytes if and only if it is their base64url text with any number of padding characters. |
| `VaultLifecycle.BackupFormat` | crates/dwn-rs-agent/src/agent/vault.rs:355-398 | The blob of every successful backup, member by member: date, size, and the two tokens and the status as stored. |
| `VaultTheorems.FailuresWriteNothing` | crates/dwn-rs-agent/src/agent/service.rs:43-52 | Unlock and lock never write; a failed call writes nothing unless its commit went through unreported. |
| `VaultTheorems.BlankPasswordsRefused` | crates/dwn-rs-agent/src/agent/vault.rs:124-352 | A blank new password is refused by initialize, password change and reset, and writes nothing. |
| `VaultTheorems.NeverInitializedTwice` | crates/dwn-rs-agent/src/agent/vault.rs:124-136 | An initialized vault is never initialized again, and trying leaves its entries alone. |
| `VaultTheorems.ResetNeedsPhrase` | crates/dwn-rs-agent/src/agent/vault.rs:284-352 | A reset succeeds only with a phrase that derives the stored key and a provider that rebuilds the stored URI; it replaces the wrapped key alone, and the new password opens it. |
| `VaultTheorems.OtherSecretsUntouched` | crates/dwn-rs-agent/src/agent/vault.rs:124-476 | No call changes any other secret in the store. |
| `VaultTheorems.UnlockIff` | crates/dwn-rs-agent/src/agent/vault.rs:202-220 | Where nothing outside fails, unlocking works with exactly the passwords that open the stored key, yields the stored key, and reports a wrong password exactly when the stored key does not authenticate under it. |
| `VaultTheorems.NewPasswordOpens` | crates/dwn-rs-agent/src/agent/vault.rs:245-284 | After a password change the new password opens the same key with the same salt and work factor, and the other entries are untouched. |
| `VaultTheorems.InitialPasswordOpens` | crates/dwn-rs-agent/src/agent/vault.rs:124-199 | After a successful initialize the vault is unlocked under the new key, and the password it was given opens the stored one. |
| `VaultTheorems.IdentityKept` | crates/dwn-rs-agent/src/agent/vault.rs:233-242 | After initialize and any run without a restore, an unlocked vault returns the very DID that initialize returned. |
| `VaultTheorems.PhraseRecovers` | crates/dwn-rs-agent/src/agent/vault.rs:284-352 | After any run without a restore, a reset with the phrase that initialize returned succeeds when the provider rebuilds the same URI, and the new password unlocks the original key. |
| `VaultBackup.BackupThenRestore` | crates/dwn-rs-agent/src/agent/vault.rs:355-476 | A backup taken at any reachable state, restored after any later run with a password valid at backup time, puts back the same key and DID entries, ends unlocked under the original key, and takes the last-backup time from the blob or else from the current status. |
| `VaultBackup.RestoreAnywhere` | crates/dwn-rs-agent/src/agent/vault.rs:355-476 | A backup taken at any reachable state can be restored at any reachable state, also over another store, with a password valid at backup time: same key and DID entries, unlocked under the original key, last-backup time from the blob or else from the state restored into. |
| `VaultBackup.BackupTimeGoesBack` | crates/dwn-rs-agent/src/agent/vault.rs:355-476 | Where nothing outside fails, an unlocked vault that makes two backups and restores the second names the second as its last backup before the restore and the first after it. |
| `VaultBackup.BackupIff` | crates/dwn-rs-agent/src/agent/vault.rs:355-398 | Where nothing outside fails, a backup works if and only if the vault is unlocked. |
| `VaultBackup.BackupRecordsItself` | crates/dwn-rs-agent/src/agent/vault.rs:355-398 | A backup records its own time in the status, keeps the last restore, and touches neither the key nor the DID. |
| `VaultBackup.LenientDecode` | crates/dwn-rs-agent/src/agent/vault.rs:561-566 | The exported text decodes with any number of padding characters after it. |
| `VaultInstance.HypothesesHold` | crates/dwn-rs-agent/src/agent/vault.rs:124-199 | The hypotheses used for the vault hold together for an explicit set of primitives, over which an empty store is initialized by any password that is not blank, ends unlocked, and is opened by that password. |
| `KeyDerivation.DeriveSucceedsIff` | crates/dwn-rs-core/src/encryption/kdf.rs:79-91 | Derivation fails on exactly the paths with an empty segment. |
| `KeyDerivation.DeriveAppend` | crates/dwn-rs-core/src/encryption/kdf.rs:79-91 | Deriving along two paths in turn is deriving along their concatenation, errors included. |
| `KeyDerivation.DeriveIsChain` | crates/dwn-rs-core/src/encryption/kdf.rs:79-91 | There is exactly one chain of keys that starts with the given one and takes one HKDF step per segment with the segment's bytes, and its last key is the derived one. |
| `KeyDerivation.DerivedKeyIsChain` | crates/dwn-rs-agent/src/agent/memory.rs:128-165 | The key manager's key is the last of that chain from the stored 32 bytes, and the public key it gives out is its public half. |
| `KeyDerivation.StoredKeyIff` | crates/dwn-rs-agent/src/agent/memory.rs:128-155 | A key can be derived from if and only if it is stored as an X25519 key with 32 private bytes. |
| `KeyDerivation.DerivePrivateKeyBytes` | crates/dwn-rs-core/src/encryption/kdf.rs:79-91 | The derivation loop computes the key of the path or the empty-segment error. |
| `KeyDerivation.DeriveInKeyManager` | crates/dwn-rs-agent/src/agent/memory.rs:128-165 | The key manager's loop computes the same derivation from the stored X25519 key, with its lookup errors. |
| `KeyDerivation.ExtendDerivedKey` | crates/dwn-rs-agent/src/agent/memory.rs:128-165 | Extending a derived key along more segments gives the key manager's key for the longer path. |
| `Injection.CollectProtocolPaths` | crates/dwn-rs-agent/src/auth/setup.rs:497-511 | The recursive loop appends the paths of the non-reference nodes, parents first, siblings in name order. |
| `Injection.CollectExact` | crates/dwn-rs-agent/src/auth/setup.rs:497-511 | A path is collected if and only if the tree has a non-reference node there. |
| `Injection.SetAtExact` | crates/dwn-rs-agent/src/auth/setup.rs:512-540 | Setting a key succeeds exactly on the paths of the tree and changes that node's key and nothing else. |
| `Injection.InjectProtocolEncryption` | crates/dwn-rs-agent/src/auth/setup.rs:453-495 | The path loop computes the specified injection, with the same errors, and leaves its input alone. |
| `Injection.InjectExact` | crates/dwn-rs-agent/src/auth/setup.rs:453-540 | Injection succeeds if and only if the root key is usable, the protocol is named and no non-reference position has an empty name on its path; each non-reference position then has the key of its own full path, and every other field is as before. |
| `Injection.InjectIdempotent` | crates/dwn-rs-agent/src/auth/setup.rs:453-540 | Injecting twice is injecting once. |
| `Injection.InjectedHasEncryption` | crates/dwn-rs-core/src/interfaces/messages/protocols.rs:308-311 | An injected definition reports encryption if and only if it has a non-reference position or already had a key. |
| `Protocols.SameRulesSameTree` | crates/dwn-rs-core/src/interfaces/messages/protocols.rs:394-409 | A rule tree is determined by the rules found at its paths. |
| `Protocols.MultiPartyIff` | crates/dwn-rs-core/src/interfaces/messages/protocols.rs:312-318 | A protocol allows several parties if and only if the rule at some path is a role, or lets an author or recipient read, from the second level on with reference to another record. |
| `Protocols.RequiresEncryptionIff` | crates/dwn-rs-core/src/interfaces/messages/protocols.rs:300-305 | Encryption is required if and only if some type says so. |
| `Protocols.PathReadBackIff` | crates/dwn-rs-agent/src/auth/connect.rs:283-296 | A path joined with slashes is split back into itself, and has any spelling at all, if and only if no name is empty or contains a slash. |
| `Protocols.SlashInName` | crates/dwn-rs-agent/src/auth/connect.rs:283-296 | The failing input: the single name `a/b` is read as two names. |
| `Delegates.DeriveDelegateKeys` | crates/dwn-rs-agent/src/auth/connect.rs:248-328 | The loops over requests and scopes compute the specified delegation, with the root key looked up first, or the first derivation error. |
| `Delegates.RequestsExact` | crates/dwn-rs-agent/src/auth/connect.rs:248-328 | A delegate gets exactly one key per eligible scope, in order (read-like, no context, encrypted, single-party); exactly the multi-party protocols asked for as a whole are reported, once each and in name order. |
| `Delegates.WritersGetNothing` | crates/dwn-rs-agent/src/auth/connect.rs:263-275 | Scopes that configure protocols, write or delete make no difference wherever they stand, and requests with nothing else get no key and no report. |
| `Delegates.UnreadableScopeIgnored` | crates/dwn-rs-agent/src/auth/connect.rs:269-275 | A scope that reads nothing, or names a context, is as if it were not there. |
| `Delegates.ReaderGetsOneKey` | crates/dwn-rs-agent/src/auth/connect.rs:276-322 | A scope that reads messages or records of an encrypted protocol with one party adds exactly one key: the private key of `protocolPath`, the protocol and the names on its path. |
| `Delegates.SharedProtocolReported` | crates/dwn-rs-agent/src/auth/connect.rs:276-281 | The same scope of a protocol with several parties adds no key, and reports the protocol if and only if it has no path. |
| `Delegates.PlainProtocolIgnored` | crates/dwn-rs-agent/src/auth/connect.rs:263-267 | A request for a protocol without encryption changes nothing. |
| `Delegates.DelegationSucceedsIff` | crates/dwn-rs-agent/src/auth/connect.rs:248-328 | Delegation succeeds if and only if the tenant has a root key and, for every eligible scope, that key is usable and the protocol is named. |
| `Delegates.DelegateKeyFits` | crates/dwn-rs-agent/src/auth/connect.rs:263-328 | The private key for a scope has as its public half exactly the key injected where the scope points, for the whole protocol and for every spelling of a non-reference path. |
| `Delegates.ProtocolKeyReachesAll` | crates/dwn-rs-agent/src/auth/connect.rs:263-328 | The protocol-level private key, extended along any non-reference path, is the private half of the key injected there. |
| `RestoreFlow.MemoryProtocolEndpoint.InstallProtocolIfNeeded` | crates/dwn-rs-agent/src/auth/setup.rs:365-402 | The new endpoint state and result are those of the install step. |
| `RestoreFlow.RunRestoreFlow` | crates/dwn-rs-agent/src/auth/setup.rs:421-448 | The two loops leave both endpoints and the result as specified, also when one endpoint plays both roles. |
| `RestoreFlow.InstallsOnlyAdd` | crates/dwn-rs-agent/src/auth/setup.rs:365-402 | Failed or not, a run of installs leaves served definitions untouched, adds only listed protocols of this tenant, and when it completes serves all of them. |
| `RestoreFlow.NewlyServed` | crates/dwn-rs-agent/src/auth/setup.rs:365-402 | What is newly served is the first listed definition of that protocol: injected if it requires encryption, else as it is. |
| `RestoreFlow.ResultsSay` | crates/dwn-rs-agent/src/auth/setup.rs:365-402 | There is one result per definition; it says installed for exactly those not served before, and encrypted for exactly those that require it and were installed now or are served with keys. |
| `RestoreFlow.CompletesIff` | crates/dwn-rs-agent/src/auth/setup.rs:365-402 | A run of installs completes if and only if every query works and every new definition can be injected, where it must be, and is accepted. |
| `RestoreFlow.StopsAtFirstFailure` | crates/dwn-rs-agent/src/auth/setup.rs:421-448 | A run that fails stops at one definition: those before it are installed as in a run of their own, those after it are not touched, and the error and the endpoint say why it stopped. |
| `RestoreFlow.FlowServesAll` | crates/dwn-rs-agent/src/auth/setup.rs:421-448 | A completed flow leaves every listed protocol served by both endpoints; completed or not, nothing served before has changed. |
| `RestoreFlow.LocalComesFirst` | crates/dwn-rs-agent/src/auth/setup.rs:421-448 | If the local installs fail, the flow gives their error and never reaches the remote endpoint; otherwise the pushes run and both lists of results are reported. The flow completes if and only if both runs do. |
| `RestoreFlow.FlowConverges` | crates/dwn-rs-agent/src/auth/setup.rs:421-448 | After a failure anywhere, an undisturbed rerun ends in the same two endpoint states as one undisturbed run, and completes exactly when that one does. |
| `RestoreFlow.FlowStable` | crates/dwn-rs-agent/src/auth/setup.rs:421-448 | A rerun after a completed flow changes neither endpoint, whatever the endpoints answer. |
| `RestoreFlow.RerunReportsEncryption` | crates/dwn-rs-agent/src/auth/setup.rs:375-385 | A protocol installed as encrypted is reported so again if and only if it has a non-reference position or already had a key. |
| `RestoreFlow.ReferenceOnlyProtocol` | crates/dwn-rs-agent/src/auth/setup.rs:375-385 | The failing input: a protocol made of one reference is reported encrypted when installed and not encrypted when asked again. |

## Left out

- HTTP, redirects, timeouts and JSON-RPC: the gateway's transport is an arbitrary function of the request.
- DNS name compression and packet layout: a packet is its list of answers; only that its text records survive is used, and which names are DNS names is a function value.
- The curves, signatures, hashes, PBKDF2, HKDF, GCM and BIP-39: function values, with the hypotheses listed above.
- JSON text: a value survives being written and read; numbers are integers, so a fractional number has no counterpart.
- `key_agreement_root_key_id`: the name of the tenant's first X25519 key-agreement method is an input of `Injection.Inject` and `Delegates.DelegateKeysFor`.
- `get_did`, `encrypt_data` and `decrypt_data` change nothing, so they are functions of the state rather than methods of the class.
- Injection.SetAtExact: the source walks down with a mutable reference; the model rebuilds the tree along the path.
- VaultTheorems.PhraseRecovers: that the provider gives the same URI for the same phrase is a hypothesis about the provider.
- RestoreFlow.RunRestoreFlow: the list of step names in the result is left out; it is the same three names for every completed flow.
- Two vaults over one store: operations of one vault are serialized by its lock, and the model has one vault.
- Erasing keys from memory after use: a value model has no memory to erase.
- `initialize_from_recovery`, context keys, connect requests and their storage, registration tokens, sync, record authorization and the FFI facade: they would add easy members or depend on parts outside this model.

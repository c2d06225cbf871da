/** The hypotheses about the vault's primitives hold together: a toy instance satisfies them all, and a
    vault over it can be initialized. */
module VaultInstance {
  import opened Wrappers
  import opened Bytes
  import opened Utf8
  import opened AesKeyWrap
  import opened DidDocument
  import opened VaultJwe
  import opened Vault
  import opened VaultRuns
  import opened VaultTheorems
  import opened JsonCode
  import Base64Url
  import BTree

  // ------------------------------------------------------------------ a toy cipher

  function AddByte(a: byte, b: byte): byte {
    (a + b) % 256
  }

  function SubByte(a: byte, b: byte): byte {
    (a - b) % 256
  }

  /** Shift the first 32 bytes by the key, if there are that many. */
  function Shift(key: Key, m: bytes): (r: bytes)
    ensures |r| == |m|
  {
    if |m| < 32 then m else seq(|m|, i requires 0 <= i < |m| => if i < 32 then AddByte(m[i], key[i]) else m[i])
  }

  function Unshift(key: Key, m: bytes): (r: bytes)
    ensures |r| == |m|
  {
    if |m| < 32 then m else seq(|m|, i requires 0 <= i < |m| => if i < 32 then SubByte(m[i], key[i]) else m[i])
  }

  lemma UnshiftShift(key: Key, m: bytes)
    ensures Unshift(key, Shift(key, m)) == m
  {
  }

  lemma UnshiftDetermines(key: Key, other: Key, m: bytes)
    requires |m| >= 32 && Unshift(key, m) == Unshift(other, m)
    ensures key == other
  {
    forall i | 0 <= i < 32
      ensures key[i] == other[i]
    {
      assert Unshift(key, m)[i] == SubByte(m[i], key[i]) && Unshift(other, m)[i] == SubByte(m[i], other[i]);
    }
  }

  const NO_TAG: Tag := seq(16, _ => 0)

  const THE_DID: PortableDid := PortableDid("did:example:toy", JNumber(40))

  function DidFields(did: PortableDid): map<string, Json> {
    map["uri" := JString(did.uri), "content" := did.content]
  }

  function DidOf(j: Json): Option<PortableDid> {
    var uri :- StringMember(j, "uri");
    var content :- Member(j, "content");
    var did := PortableDid(uri, content);
    if j == JObject(DidFields(did)) then Some(did) else None
  }

  ghost const TOY: Crypto := Crypto(
    Cipher((k, a, b) => (a, b), (k, a, b) => (a, b)),
    (password, salt, count) => seq(32, _ => 0),
    (key, iv, aad, message) => Shift(key, message) + NO_TAG,
    (key, iv, aad, sealed) => if |sealed| < 16 then None else Some(Unshift(key, sealed[..|sealed| - 16])),
    j => Code(j),
    b => Decoded(b),
    k => k,
    did => DidFields(did),
    j => DidOf(j),
    did => did == THE_DID)

  ghost const TOY_WORLD: World := World(TOY, phrase => Some(AgentKeys(seq(32, _ => 7), [])), 1)

  lemma ToyIsSound()
    ensures Sound(TOY)
  {
    forall k: bytes, a: Half, b: Half
      ensures Inverse(TOY.cipher, k, a, b)
    {
    }
    forall key: Key, iv: Iv, aad: bytes, message: bytes
      ensures SealKept(TOY, key, iv, aad, message)
    {
      UnshiftShift(key, message);
      var sealed := Shift(key, message) + NO_TAG;
      assert sealed[..|sealed| - 16] == Shift(key, message);
    }
    forall j: Json
      ensures JsonKept(TOY, j)
    {
      DecodedCode(j);
    }
    forall did: PortableDid
      ensures DidKept(TOY, did)
    {
      assert DidFields(did)["uri"] == JString(did.uri) && DidFields(did)["content"] == did.content;
    }
  }

  lemma {:induction false} FieldsLength(j: Json, names: seq<string>, name: string)
    requires j.JObject? && (forall n <- names :: n in j.members) && name in names
    ensures |Fields(j, names)| >= |Code(j.members[name])|
    decreases |names|
  {
    hide Code, CodeText;
    if name != names[0] {
      FieldsLength(j, names[1..], name);
    }
  }

  lemma DidIsLong()
    ensures |Code(JObject(DidFields(THE_DID)))| >= 32
  {
    var j := JObject(DidFields(THE_DID));
    var names := BTree.InOrder(j.members.Keys);
    assert "content" in j.members.Keys;
    FieldsLength(j, names, "content");
    assert j.members["content"] == JNumber(40);
    hide BTree.InOrder;
    assert Content(JNumber(40)) == Unary(40);
  }

  /** A DID token opens to the one usable DID, so the shift it undoes is known. */
  lemma ToyOpens(jwe: string, key: Key) returns (ciphertext: bytes)
    requires DecryptDid(TOY, jwe, key).Some?
    ensures SplitCompact(jwe).Some? && ciphertext == SplitCompact(jwe).value.ciphertext
    ensures |ciphertext| >= 32 && Unshift(key, ciphertext) == Code(JObject(DidFields(THE_DID)))
  {
    hide SplitCompact, Code, Content, DecodeHeader, HasAlgorithms, Unshift, DidFields;
    var parts := SplitCompact(jwe).value;
    ciphertext := parts.ciphertext;
    var sealed := ciphertext + parts.tag;
    assert sealed[..|sealed| - 16] == ciphertext;
    var plaintext := Unshift(key, ciphertext);
    assert DecryptDirect(TOY, jwe, key) == Some(plaintext);
    var j := Decoded(plaintext).value;
    assert DidOf(j) == Some(THE_DID) && Code(j) == plaintext;
    DidIsLong();
  }

  /** A password only enters through the derived key. */
  lemma PasswordIsDerived(c: Crypto, jwe: string, p: bytes, q: bytes)
    requires forall salt: bytes, count: u32 :: c.pbkdf2(p, salt, count) == c.pbkdf2(q, salt, count)
    ensures UnwrapCek(c, jwe, p) == UnwrapCek(c, jwe, q)
  {
    hide SplitCompact, DecodeHeader, HasAlgorithms, UnwrapContentKey, OpenParts, ParseOctJwk, SaltInput,
      Base64Url.Decode;
  }

  lemma ToyCommits()
    ensures Committing(TOY)
  {
    forall jwe: string, p: bytes, q: bytes
      ensures OneKey(TOY, jwe, p, q)
    {
      hide UnwrapCek;
      PasswordIsDerived(TOY, jwe, p, q);
    }
    forall jwe: string, k: Key, l: Key
      ensures OneSeal(TOY, jwe, k, l)
    {
      hide DecryptDid, SplitCompact, Code, Unshift;
      if DecryptDid(TOY, jwe, k).Some? && DecryptDid(TOY, jwe, l).Some? {
        var a := ToyOpens(jwe, k);
        var b := ToyOpens(jwe, l);
        UnshiftDetermines(k, l, a);
      }
    }
  }

  lemma EmptyReachable(w: World)
    ensures Reachable(w, State(map[], None))
  {
    assert RunFrom(w, map[], []) == State(map[], None);
  }

  /** The hypotheses are satisfiable, and the runs they speak of exist: over the toy primitives an empty
      store can be initialized, by any password that is not blank, and is then unlocked and opened by it. */
  lemma HypothesesHold(password: string, o: Outside)
    requires !IsBlank(password) && o.did == Some(THE_DID)
    requires o.statusRead && o.wrapTask && o.sealing && o.commit.Applied?
    ensures Ideal(TOY_WORLD)
    ensures var r := InitializeStep(TOY_WORLD, State(map[], None), password, None, o);
            && r.result.Ok? && r.state.cek.Some? && Reachable(TOY_WORLD, r.state)
            && PasswordOpens(TOY, r.state.store, password)
  {
    hide IsBlank, WrapTyped, EncryptDid, UnwrapCek, DecryptDid, ToUtf8, ApplyAll, Code, Sound, Committing,
      PasswordOpens, Run, Reachable;
    ToyIsSound();
    ToyCommits();
    var keys := PhraseKeys(TOY_WORLD, o.freshPhrase).value;
    CekRoundTrip(TOY, ToUtf8(password), keys.0, keys.1, 1, o.contentKey, o.keyIv);
    DidRoundTrip(TOY, THE_DID, keys.0, o.didIv);
    InitialPasswordOpens(TOY_WORLD, State(map[], None), password, None, o);
    EmptyReachable(TOY_WORLD);
    ReachableNext(TOY_WORLD, State(map[], None), Call(Initialize(password, None), o));
  }
}

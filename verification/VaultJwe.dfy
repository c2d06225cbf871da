/** The at-rest tokens of the vault: compact JWEs (section 7.1 of RFC 7516) that wrap the content
    key under a password (section 4.8 of RFC 7518) or encrypt directly under the content key. */
module VaultJwe {
  import opened Wrappers
  import opened Bytes
  import opened Text
  import opened Utf8
  import opened AesKeyWrap
  import opened DidDocument
  import Base64Url

  type Key = b: bytes | |b| == 32 witness seq(32, _ => 0)
  type Iv = b: bytes | |b| == 12 witness seq(12, _ => 0)
  type Tag = b: bytes | |b| == 16 witness seq(16, _ => 0)

  const U32_LIMIT: nat := 0x1_0000_0000

  type u32 = n: nat | n < U32_LIMIT

  const PBES2_ALG: string := "PBES2-HS512+A256KW"
  const DIRECT_ALG: string := "dir"
  const A256GCM: string := "A256GCM"
  const GCM_TAG_LEN: nat := 16

  /** The agent's DID with its keys; only its URI matters to the vault. */
  datatype PortableDid = PortableDid(uri: string, content: Json)

  /** Primitive cryptography, JSON text and the DID's own serialization, supplied from outside. */
  datatype Crypto = Crypto(
    cipher: Cipher,
    pbkdf2: (bytes, bytes, u32) -> Key,
    seal: (Key, Iv, bytes, bytes) -> bytes,
    open: (Key, Iv, bytes, bytes) -> Option<bytes>,
    writeJson: Json -> bytes,
    parseJson: bytes -> Option<Json>,
    octThumbprint: string -> string,
    didMembers: PortableDid -> map<string, Json>,
    parseDid: Json -> Option<PortableDid>,
    usable: PortableDid -> bool)

  /** Sealing appends a 16-byte tag, and opening under the same key, nonce and header undoes it. */
  predicate SealKept(c: Crypto, key: Key, iv: Iv, aad: bytes, message: bytes) {
    && |c.seal(key, iv, aad, message)| == |message| + GCM_TAG_LEN
    && c.open(key, iv, aad, c.seal(key, iv, aad, message)) == Some(message)
  }

  predicate JsonKept(c: Crypto, j: Json) {
    c.writeJson(j) != [] && c.parseJson(c.writeJson(j)) == Some(j)
  }

  predicate DidKept(c: Crypto, did: PortableDid) {
    c.parseDid(JObject(c.didMembers(did))) == Some(did)
  }

  ghost predicate Sound(c: Crypto) {
    && Bijective(c.cipher)
    && (forall key: Key, iv: Iv, aad: bytes, message: bytes :: SealKept(c, key, iv, aad, message))
    && (forall j: Json :: JsonKept(c, j))
    && (forall did: PortableDid :: DidKept(c, did))
  }

  function Member(j: Json, name: string): Option<Json> {
    if j.JObject? && name in j.members then Some(j.members[name]) else None
  }

  function StringMember(j: Json, name: string): Option<string> {
    var v :- Member(j, name);
    if v.JString? then Some(v.s) else None
  }

  function U64Member(j: Json, name: string): Option<u64> {
    var v :- Member(j, name);
    if v.JNumber? && 0 <= v.n < U64_LIMIT then Some(v.n) else None
  }

  // ------------------------------------------------------------------ the compact form

  datatype CompactParts = CompactParts(protected_: string, encryptedKey: Option<bytes>, iv: Iv, ciphertext: bytes,
                                       tag: Tag)

  function EncryptedKeyText(key: Option<bytes>): string {
    if key.None? then "" else Base64Url.Encode(key.value)
  }

  function Compact(p: CompactParts): string {
    Join([p.protected_, EncryptedKeyText(p.encryptedKey), Base64Url.Encode(p.iv), Base64Url.Encode(p.ciphertext),
          Base64Url.Encode(p.tag)], '.')
  }

  /** Exactly five segments; header, nonce and tag present; an empty key segment means no key. */
  function SplitCompact(jwe: string): Option<CompactParts> {
    var s := Split(jwe, '.');
    if |s| != 5 || s[0] == "" || s[2] == "" || s[4] == "" then None
    else
      var key :- (if s[1] == "" then Some(None)
                  else
                    match Base64Url.Decode(s[1])
                    case None => None
                    case Some(b) => Some(Some(b)));
      var iv :- Base64Url.Decode(s[2]);
      var tag :- Base64Url.Decode(s[4]);
      if |iv| != 12 || |tag| != 16 then None
      else
        var ciphertext :- Base64Url.Decode(s[3]);
        Some(CompactParts(s[0], key, iv, ciphertext, tag))
  }

  predicate WellFormedParts(p: CompactParts) {
    p.protected_ != "" && '.' !in p.protected_ && p.encryptedKey != Some([])
  }

  /** Splitting undoes joining. */
  lemma SplitOfCompact(p: CompactParts)
    requires WellFormedParts(p)
    ensures SplitCompact(Compact(p)) == Some(p)
  {
    hide Base64Url.Encode, Base64Url.Decode, Join, Split;
    var segments := [p.protected_, EncryptedKeyText(p.encryptedKey), Base64Url.Encode(p.iv),
                     Base64Url.Encode(p.ciphertext), Base64Url.Encode(p.tag)];
    Base64Url.EncodeDelimiterFree(p.iv);
    Base64Url.EncodeDelimiterFree(p.ciphertext);
    Base64Url.EncodeDelimiterFree(p.tag);
    Base64Url.DecodeEncode(p.iv);
    Base64Url.DecodeEncode(p.ciphertext);
    Base64Url.DecodeEncode(p.tag);
    if p.encryptedKey.Some? {
      Base64Url.EncodeDelimiterFree(p.encryptedKey.value);
      Base64Url.DecodeEncode(p.encryptedKey.value);
    }
    SplitJoin(segments, '.');
  }

  /** A token has one spelling: whatever splits is the compact form of its parts. */
  lemma CompactOfSplit(jwe: string)
    requires SplitCompact(jwe).Some?
    ensures WellFormedParts(SplitCompact(jwe).value)
    ensures Compact(SplitCompact(jwe).value) == jwe
  {
    hide Base64Url.Encode, Base64Url.Decode, Join, Split;
    var s := Split(jwe, '.');
    var p := SplitCompact(jwe).value;
    Base64Url.EncodeDecode(s[2]);
    Base64Url.EncodeDecode(s[3]);
    Base64Url.EncodeDecode(s[4]);
    if s[1] != "" {
      Base64Url.EncodeDecode(s[1]);
      EmptyEncodes();
    }
    JoinSplit(jwe, '.');
    assert s == [s[0], s[1], s[2], s[3], s[4]];
  }

  lemma EmptyEncodes()
    ensures Base64Url.Encode([]) == ""
  {
  }

  // ------------------------------------------------------------------ wrapping the content key

  datatype CekDecodeError = Authentication | Corrupt

  datatype CekHeader = CekHeader(p2c: u32, p2s: bytes, cty: Option<string>)

  datatype OpenedCek = OpenedCek(cek: Key, header: CekHeader)

  function SaltInput(salt: bytes): bytes {
    ToUtf8(PBES2_ALG) + [0] + salt
  }

  function DeriveKek(c: Crypto, password: bytes, p2s: string, p2c: u32): Option<Key> {
    var salt :- Base64Url.Decode(p2s);
    Some(c.pbkdf2(password, SaltInput(salt), p2c))
  }

  function CekJoseHeader(p2s: string, p2c: u32, cty: string): Json {
    JObject(map["alg" := JString(PBES2_ALG), "enc" := JString(A256GCM), "cty" := JString(cty), "p2c" := JNumber(p2c),
                "p2s" := JString(p2s)])
  }

  function DecodeHeader(c: Crypto, protected_: string): Option<Json> {
    var headerBytes :- Base64Url.Decode(protected_);
    var header :- c.parseJson(headerBytes);
    if header.JObject? then Some(header) else None
  }

  predicate HasAlgorithms(header: Json, alg: string) {
    StringMember(header, "alg") == Some(alg) && StringMember(header, "enc") == Some(A256GCM)
  }

  lemma DecodeEncodedHeader(c: Crypto, header: Json)
    requires Sound(c) && header.JObject?
    ensures var protected_ := Base64Url.Encode(c.writeJson(header));
            protected_ != "" && '.' !in protected_ && DecodeHeader(c, protected_) == Some(header)
  {
    hide Base64Url.Encode, Base64Url.Decode;
    assert JsonKept(c, header);
    Base64Url.EncodeDelimiterFree(c.writeJson(header));
    Base64Url.DecodeEncode(c.writeJson(header));
    EmptyDecodes();
  }

  lemma EmptyDecodes()
    ensures Base64Url.Decode("") == Some([])
  {
  }

  /** Seal under a fresh key and split the tag off the end. */
  function SealParts(c: Crypto, key: Key, iv: Iv, protected_: string, message: bytes,
                     encryptedKey: Option<bytes>): Option<CompactParts> {
    var combined := c.seal(key, iv, ToUtf8(protected_), message);
    if |combined| < GCM_TAG_LEN then None
    else Some(CompactParts(protected_, encryptedKey, iv, combined[..|combined| - GCM_TAG_LEN],
                           combined[|combined| - GCM_TAG_LEN..]))
  }

  function OpenParts(c: Crypto, key: Key, p: CompactParts): Option<bytes> {
    c.open(key, p.iv, ToUtf8(p.protected_), p.ciphertext + p.tag)
  }

  lemma OpenOfSealed(c: Crypto, key: Key, iv: Iv, protected_: string, message: bytes, encryptedKey: Option<bytes>)
    requires Sound(c)
    ensures var p := SealParts(c, key, iv, protected_, message, encryptedKey);
            && p.Some? && p.value.protected_ == protected_ && p.value.encryptedKey == encryptedKey
            && p.value.iv == iv && p.value.ciphertext + p.value.tag == c.seal(key, iv, ToUtf8(protected_), message)
            && OpenParts(c, key, p.value) == Some(message)
  {
    hide ToUtf8;
    var combined := c.seal(key, iv, ToUtf8(protected_), message);
    assert SealKept(c, key, iv, ToUtf8(protected_), message);
    assert combined == combined[..|combined| - GCM_TAG_LEN] + combined[|combined| - GCM_TAG_LEN..];
  }

  function OctJwk(c: Crypto, cek: Key): Json {
    var k := Base64Url.Encode(cek);
    JObject(map["k" := JString(k), "kty" := JString("oct"), "kid" := JString(c.octThumbprint(k))])
  }

  function ParseOctJwk(c: Crypto, plaintext: bytes): Option<Key> {
    var jwk :- c.parseJson(plaintext);
    var k :- StringMember(jwk, "k");
    var kty :- StringMember(jwk, "kty");
    var kid :- StringMember(jwk, "kid");
    if kty != "oct" then None
    else
      var raw :- Base64Url.Decode(k);
      if |raw| != 32 || kid != c.octThumbprint(k) then None else Some(raw)
  }

  lemma ParseOfOct(c: Crypto, cek: Key)
    requires Sound(c)
    ensures ParseOctJwk(c, c.writeJson(OctJwk(c, cek))) == Some(cek)
  {
    hide Base64Url.Encode, Base64Url.Decode;
    assert JsonKept(c, OctJwk(c, cek));
    Base64Url.DecodeEncode(cek);
  }

  const TEXT_PLAIN: string := "text/plain"

  /** A token of the given content type; every token this codec writes has type `text/plain`. */
  function WrapTyped(c: Crypto, password: bytes, salt: bytes, p2c: u32, cty: string, plaintext: bytes,
                     contentKey: Key, iv: Iv): Option<string> {
    var p2s := Base64Url.Encode(salt);
    var protected_ := Base64Url.Encode(c.writeJson(CekJoseHeader(p2s, p2c, cty)));
    var kek :- DeriveKek(c, password, p2s, p2c);
    match Wrap(c.cipher, kek, contentKey)
    case Err(_) => None
    case Ok(encryptedKey) =>
      var parts :- SealParts(c, contentKey, iv, protected_, plaintext, Some(encryptedKey));
      Some(Compact(parts))
  }

  function WrapRaw(c: Crypto, password: bytes, salt: bytes, p2c: u32, plaintext: bytes, contentKey: Key,
                   iv: Iv): Option<string> {
    WrapTyped(c, password, salt, p2c, TEXT_PLAIN, plaintext, contentKey, iv)
  }

  /** Wrap a content key under a password; `contentKey` and `iv` are the random draws. */
  function WrapCek(c: Crypto, password: bytes, cek: Key, salt: bytes, p2c: u32, contentKey: Key,
                   iv: Iv): Option<string> {
    if p2c < 1 then None else WrapRaw(c, password, salt, p2c, c.writeJson(OctJwk(c, cek)), contentKey, iv)
  }

  /** The vault's own key unwrap: 40 bytes, no other length. */
  function UnwrapContentKey(c: Cipher, kek: Key, wrapped: bytes): (r: Result<Key, CekDecodeError>)
  {
    if |wrapped| != 40 then Err(Corrupt)
    else
      match Unwrap(c, kek, wrapped)
      case Err(_) => Err(Authentication)
      case Ok(plaintext) => if |plaintext| == 32 then Ok(plaintext) else Err(Corrupt)
  }

  function UnwrapCek(c: Crypto, jwe: string, password: bytes): Result<OpenedCek, CekDecodeError> {
    match SplitCompact(jwe)
    case None => Err(Corrupt)
    case Some(parts) =>
      match DecodeHeader(c, parts.protected_)
      case None => Err(Corrupt)
      case Some(h) =>
        if !HasAlgorithms(h, PBES2_ALG) then Err(Corrupt)
        else
          var p2c := U64Member(h, "p2c");
          var p2s := StringMember(h, "p2s");
          if p2c.None? || !(1 <= p2c.value < U32_LIMIT) || p2s.None? then Err(Corrupt)
          else
            match Base64Url.Decode(p2s.value)
            case None => Err(Corrupt)
            case Some(salt) =>
              if parts.encryptedKey.None? then Err(Corrupt)
              else
                var kek := c.pbkdf2(password, SaltInput(salt), p2c.value);
                var contentKey :- UnwrapContentKey(c.cipher, kek, parts.encryptedKey.value);
                match OpenParts(c, contentKey, parts)
                case None => Err(Authentication)
                case Some(plaintext) =>
                  match ParseOctJwk(c, plaintext)
                  case None => Err(Corrupt)
                  case Some(cek) => Ok(OpenedCek(cek, CekHeader(p2c.value, salt, StringMember(h, "cty"))))
  }

  /** Open under the old password and wrap the same key under the new one. */
  function RewrapCek(c: Crypto, oldPassword: bytes, newPassword: bytes, jwe: string, contentKey: Key,
                     iv: Iv): Option<string> {
    match UnwrapCek(c, jwe, oldPassword)
    case Err(_) => None
    case Ok(found) =>
      WrapRaw(c, newPassword, found.header.p2s, found.header.p2c, c.writeJson(OctJwk(c, found.cek)), contentKey, iv)
  }

  // ------------------------------------------------------------------ round trips

  lemma WrappedContentKey(c: Crypto, kek: Key, contentKey: Key)
    requires Sound(c)
    ensures Wrap(c.cipher, kek, contentKey).Ok?
    ensures |Wrap(c.cipher, kek, contentKey).value| == 40
    ensures UnwrapContentKey(c.cipher, kek, Wrap(c.cipher, kek, contentKey).value) == Ok(contentKey)
  {
    hide Forward, Backward;
    UnwrapWrap(c.cipher, kek, contentKey);
  }

  /** The parts of a fresh token: its header names the salt, the work factor and the content type. */
  lemma WrapTypedParts(c: Crypto, password: bytes, salt: bytes, p2c: u32, cty: string, plaintext: bytes,
                       contentKey: Key, iv: Iv) returns (parts: CompactParts)
    requires Sound(c)
    ensures WrapTyped(c, password, salt, p2c, cty, plaintext, contentKey, iv) == Some(Compact(parts))
    ensures WellFormedParts(parts)
    ensures parts.protected_ == Base64Url.Encode(c.writeJson(CekJoseHeader(Base64Url.Encode(salt), p2c, cty)))
    ensures parts.encryptedKey.Some?
    ensures UnwrapContentKey(c.cipher, c.pbkdf2(password, ToUtf8("PBES2-HS512+A256KW") + [0] + salt, p2c),
                             parts.encryptedKey.value) == Ok(contentKey)
    ensures Ok(parts.encryptedKey.value)
            == Wrap(c.cipher, c.pbkdf2(password, ToUtf8("PBES2-HS512+A256KW") + [0] + salt, p2c), contentKey)
    ensures parts.iv == iv
    ensures parts.ciphertext + parts.tag == c.seal(contentKey, iv, ToUtf8(parts.protected_), plaintext)
    ensures OpenParts(c, contentKey, parts) == Some(plaintext)
  {
    hide Wrap, UnwrapContentKey, Base64Url.Encode, Base64Url.Decode, Compact, SealParts, OpenParts, ToUtf8;
    var p2s := Base64Url.Encode(salt);
    var header := CekJoseHeader(p2s, p2c, cty);
    var protected_ := Base64Url.Encode(c.writeJson(header));
    var kek := c.pbkdf2(password, SaltInput(salt), p2c);
    Base64Url.DecodeEncode(salt);
    DecodeEncodedHeader(c, header);
    WrappedContentKey(c, kek, contentKey);
    var encryptedKey := Wrap(c.cipher, kek, contentKey).value;
    OpenOfSealed(c, contentKey, iv, protected_, plaintext, Some(encryptedKey));
    parts := SealParts(c, contentKey, iv, protected_, plaintext, Some(encryptedKey)).value;
  }

  lemma TypedRoundTrip(c: Crypto, password: bytes, cek: Key, salt: bytes, p2c: u32, cty: string, contentKey: Key,
                       iv: Iv)
    requires Sound(c) && p2c >= 1
    ensures var jwe := WrapTyped(c, password, salt, p2c, cty, c.writeJson(OctJwk(c, cek)), contentKey, iv);
            jwe.Some? && UnwrapCek(c, jwe.value, password) == Ok(OpenedCek(cek, CekHeader(p2c, salt, Some(cty))))
  {
    hide Wrap, UnwrapContentKey, Base64Url.Encode, Base64Url.Decode, Compact, SplitCompact, OpenParts, ToUtf8,
      WrapTyped, ParseOctJwk, OctJwk;
    var plaintext := c.writeJson(OctJwk(c, cek));
    var header := CekJoseHeader(Base64Url.Encode(salt), p2c, cty);
    var parts := WrapTypedParts(c, password, salt, p2c, cty, plaintext, contentKey, iv);
    SplitOfCompact(parts);
    DecodeEncodedHeader(c, header);
    Base64Url.DecodeEncode(salt);
    ParseOfOct(c, cek);
  }

  /** Wrapping then unwrapping under the same password returns the key, the salt and the work factor,
      for every salt and every positive work factor. */
  lemma CekRoundTrip(c: Crypto, password: bytes, cek: Key, salt: bytes, p2c: u32, contentKey: Key, iv: Iv)
    requires Sound(c) && p2c >= 1
    ensures WrapCek(c, password, cek, salt, p2c, contentKey, iv).Some?
    ensures UnwrapCek(c, WrapCek(c, password, cek, salt, p2c, contentKey, iv).value, password)
            == Ok(OpenedCek(cek, CekHeader(p2c, salt, Some(TEXT_PLAIN))))
  {
    hide WrapTyped, UnwrapCek, OctJwk;
    TypedRoundTrip(c, password, cek, salt, p2c, TEXT_PLAIN, contentKey, iv);
  }

  lemma UnwrappedHeader(c: Crypto, jwe: string, password: bytes)
    requires UnwrapCek(c, jwe, password).Ok?
    ensures UnwrapCek(c, jwe, password).value.header.p2c >= 1
  {
    hide SplitCompact, Base64Url.Decode, UnwrapContentKey, OpenParts, ParseOctJwk, SaltInput;
  }

  /** A re-wrapped token opens under the new password with the same key, salt and work factor. Its
      content type is always `text/plain`, so the content type survives exactly when it was that. */
  lemma RewrapRoundTrip(c: Crypto, oldPassword: bytes, newPassword: bytes, jwe: string, contentKey: Key, iv: Iv)
    requires Sound(c) && UnwrapCek(c, jwe, oldPassword).Ok?
    ensures RewrapCek(c, oldPassword, newPassword, jwe, contentKey, iv).Some?
    ensures var before := UnwrapCek(c, jwe, oldPassword).value;
            var after := UnwrapCek(c, RewrapCek(c, oldPassword, newPassword, jwe, contentKey, iv).value, newPassword);
            && after == Ok(OpenedCek(before.cek, CekHeader(before.header.p2c, before.header.p2s, Some(TEXT_PLAIN))))
            && (after == Ok(before) <==> before.header.cty == Some(TEXT_PLAIN))
  {
    hide UnwrapCek, WrapRaw;
    var before := UnwrapCek(c, jwe, oldPassword).value;
    UnwrappedHeader(c, jwe, oldPassword);
    CekRoundTrip(c, newPassword, before.cek, before.header.p2s, before.header.p2c, contentKey, iv);
  }

  /** A token of any other content type opens with it before the re-wrap and without it after. */
  lemma RewrapChangesContentType(c: Crypto, oldPassword: bytes, newPassword: bytes, cek: Key, salt: bytes, p2c: u32,
                                 cty: string, contentKey: Key, iv: Iv)
    requires Sound(c) && p2c >= 1 && cty != TEXT_PLAIN
    ensures var jwe := WrapTyped(c, oldPassword, salt, p2c, cty, c.writeJson(OctJwk(c, cek)), contentKey, iv);
            && jwe.Some? && UnwrapCek(c, jwe.value, oldPassword).Ok?
            && var after := RewrapCek(c, oldPassword, newPassword, jwe.value, contentKey, iv);
            after.Some? && UnwrapCek(c, after.value, newPassword).Ok?
            && UnwrapCek(c, after.value, newPassword).value.header.cty
               != UnwrapCek(c, jwe.value, oldPassword).value.header.cty
  {
    hide WrapTyped, UnwrapCek, RewrapCek, OctJwk;
    TypedRoundTrip(c, oldPassword, cek, salt, p2c, cty, contentKey, iv);
    var jwe := WrapTyped(c, oldPassword, salt, p2c, cty, c.writeJson(OctJwk(c, cek)), contentKey, iv).value;
    RewrapRoundTrip(c, oldPassword, newPassword, jwe, contentKey, iv);
  }

  /** What it takes for a token to open: its parts hold a key wrapped under the key derived from this
      password and from the token's own salt and work factor, and that key opens the payload. */
  lemma OpenedToken(c: Crypto, jwe: string, password: bytes) returns (parts: CompactParts, contentKey: Key)
    requires Sound(c) && UnwrapCek(c, jwe, password).Ok?
    ensures var found := UnwrapCek(c, jwe, password).value;
            && jwe == Compact(parts)
            && parts.encryptedKey.Some?
            && Wrap(c.cipher,
                    c.pbkdf2(password, ToUtf8("PBES2-HS512+A256KW") + [0] + found.header.p2s, found.header.p2c),
                    contentKey)
               == Ok(parts.encryptedKey.value)
            && OpenParts(c, contentKey, parts).Some?
            && ParseOctJwk(c, OpenParts(c, contentKey, parts).value) == Some(found.cek)
  {
    hide SplitCompact, Compact, Base64Url.Decode, Wrap, Unwrap, OpenParts, ParseOctJwk, ToUtf8, Bijective;
    CompactOfSplit(jwe);
    parts := SplitCompact(jwe).value;
    var found := UnwrapCek(c, jwe, password).value;
    var kek := c.pbkdf2(password, SaltInput(found.header.p2s), found.header.p2c);
    contentKey := UnwrapContentKey(c.cipher, kek, parts.encryptedKey.value).value;
    WrapUnwrap(c.cipher, kek, parts.encryptedKey.value);
  }

  // ------------------------------------------------------------------ direct encryption

  function DirectHeader(cty: Option<string>): Json {
    var required := map["alg" := JString(DIRECT_ALG), "enc" := JString(A256GCM)];
    JObject(if cty.Some? then required["cty" := JString(cty.value)] else required)
  }

  function EncryptDirect(c: Crypto, plaintext: bytes, cek: Key, cty: Option<string>, iv: Iv): Option<string> {
    var protected_ := Base64Url.Encode(c.writeJson(DirectHeader(cty)));
    var parts :- SealParts(c, cek, iv, protected_, plaintext, None);
    Some(Compact(parts))
  }

  function DecryptDirect(c: Crypto, jwe: string, cek: Key): Option<bytes> {
    var parts :- SplitCompact(jwe);
    if parts.encryptedKey.Some? then None
    else
      var h :- DecodeHeader(c, parts.protected_);
      if HasAlgorithms(h, DIRECT_ALG) then OpenParts(c, cek, parts) else None
  }

  function EncryptDid(c: Crypto, did: bytes, cek: Key, iv: Iv): Option<string> {
    var value :- c.parseJson(did);
    if value.JObject? then EncryptDirect(c, did, cek, Some("json"), iv) else None
  }

  function ReadDid(c: Crypto, did: bytes): Option<PortableDid> {
    var value :- c.parseJson(did);
    c.parseDid(value)
  }

  /** The payload must read as a DID that carries the keys an agent needs. */
  function DecryptDid(c: Crypto, jwe: string, cek: Key): Option<bytes> {
    var bytes :- DecryptDirect(c, jwe, cek);
    var did :- ReadDid(c, bytes);
    if c.usable(did) then Some(bytes) else None
  }

  lemma EncryptDirectParts(c: Crypto, plaintext: bytes, cek: Key, cty: Option<string>,
                           iv: Iv) returns (parts: CompactParts)
    requires Sound(c)
    ensures EncryptDirect(c, plaintext, cek, cty, iv) == Some(Compact(parts))
    ensures WellFormedParts(parts) && parts.encryptedKey == None
    ensures DecodeHeader(c, parts.protected_) == Some(DirectHeader(cty))
    ensures OpenParts(c, cek, parts) == Some(plaintext)
  {
    hide Base64Url.Encode, DecodeHeader, Compact, SealParts, OpenParts;
    DecodeEncodedHeader(c, DirectHeader(cty));
    var protected_ := Base64Url.Encode(c.writeJson(DirectHeader(cty)));
    OpenOfSealed(c, cek, iv, protected_, plaintext, None);
    parts := SealParts(c, cek, iv, protected_, plaintext, None).value;
  }

  /** Direct encryption round-trips for every plaintext, including the empty one, and a direct token
      never passes for a wrapped key, under any password. */
  lemma DirectRoundTrip(c: Crypto, plaintext: bytes, cek: Key, cty: Option<string>, iv: Iv, password: bytes)
    requires Sound(c)
    ensures EncryptDirect(c, plaintext, cek, cty, iv).Some?
    ensures var jwe := EncryptDirect(c, plaintext, cek, cty, iv).value;
            DecryptDirect(c, jwe, cek) == Some(plaintext) && UnwrapCek(c, jwe, password) == Err(Corrupt)
  {
    hide Base64Url.Decode, Compact, SplitCompact, OpenParts, EncryptDirect, DecodeHeader, UnwrapContentKey, ParseOctJwk,
      SaltInput;
    var parts := EncryptDirectParts(c, plaintext, cek, cty, iv);
    SplitOfCompact(parts);
  }

  function DidBytes(c: Crypto, did: PortableDid): bytes {
    c.writeJson(JObject(c.didMembers(did)))
  }

  /** Every DID encrypts, as a direct token of type `json`; it decrypts again exactly when it carries the keys an
      agent needs. */
  lemma DidRoundTrip(c: Crypto, did: PortableDid, cek: Key, iv: Iv)
    requires Sound(c)
    ensures EncryptDid(c, DidBytes(c, did), cek, iv).Some?
    ensures EncryptDid(c, DidBytes(c, did), cek, iv) == EncryptDirect(c, DidBytes(c, did), cek, Some("json"), iv)
    ensures ReadDid(c, DidBytes(c, did)) == Some(did)
    ensures DecryptDid(c, EncryptDid(c, DidBytes(c, did), cek, iv).value, cek)
            == (if c.usable(did) then Some(DidBytes(c, did)) else None)
  {
    hide EncryptDirect, DecryptDirect, UnwrapCek;
    assert JsonKept(c, JObject(c.didMembers(did)));
    assert DidKept(c, did);
    DirectRoundTrip(c, DidBytes(c, did), cek, Some("json"), iv, []);
  }

  /** A wrapped key never passes for a direct token. */
  lemma WrappedKeyIsNotDirect(c: Crypto, password: bytes, cek: Key, salt: bytes, p2c: u32, contentKey: Key, iv: Iv,
                              key: Key)
    requires Sound(c) && p2c >= 1
    ensures WrapCek(c, password, cek, salt, p2c, contentKey, iv).Some?
    ensures DecryptDirect(c, WrapCek(c, password, cek, salt, p2c, contentKey, iv).value, key) == None
  {
    hide WrapTyped, SplitCompact, Compact, UnwrapContentKey, OpenParts, OctJwk, ToUtf8, Bijective, Base64Url.Encode,
      Base64Url.Decode;
    var parts := WrapTypedParts(c, password, salt, p2c, TEXT_PLAIN, c.writeJson(OctJwk(c, cek)), contentKey, iv);
    DecodeEncodedHeader(c, CekJoseHeader(Base64Url.Encode(salt), p2c, TEXT_PLAIN));
    SplitOfCompact(parts);
  }

  // ------------------------------------------------------------------ the status entry

  datatype VaultStatus = VaultStatus(initialized: bool, lastBackup: Option<string>, lastRestore: Option<string>)

  const UNINITIALIZED := VaultStatus(false, None, None)

  function Nullable(s: Option<string>): Json {
    if s.Some? then JString(s.value) else JNull
  }

  function StatusJson(s: VaultStatus): Json {
    JObject(map["initialized" := JBool(s.initialized), "lastBackup" := Nullable(s.lastBackup),
                "lastRestore" := Nullable(s.lastRestore)])
  }

  function EncodeStatus(c: Crypto, s: VaultStatus): bytes {
    c.writeJson(StatusJson(s))
  }

  /** A timestamp must be present: null or a string. */
  function Timestamp(j: Json, name: string): Option<Option<string>> {
    var v :- Member(j, name);
    if v.JNull? then Some(None)
    else if v.JString? then Some(Some(v.s))
    else None
  }

  /** Only a wholly absent entry reads as uninitialized; a present one needs all three members. */
  function ParseStatus(c: Crypto, entry: Option<bytes>): Option<VaultStatus> {
    if entry.None? then Some(UNINITIALIZED)
    else
      var j :- c.parseJson(entry.value);
      var initialized :- Member(j, "initialized");
      if !initialized.JBool? then None
      else
        var lastBackup :- Timestamp(j, "lastBackup");
        var lastRestore :- Timestamp(j, "lastRestore");
        Some(VaultStatus(initialized.b, lastBackup, lastRestore))
  }

  lemma StatusRoundTrip(c: Crypto, s: VaultStatus)
    requires Sound(c)
    ensures ParseStatus(c, Some(EncodeStatus(c, s))) == Some(s)
  {
    assert JsonKept(c, StatusJson(s));
  }

  /** A timestamp as it is written: null where there is none. */
  predicate IsTimestamp(j: Option<Json>, t: Option<string>) {
    j == Some(if t.None? then JNull else JString(t.value))
  }

  /** Which entries parse: exactly the JSON objects that have the three members of some status. */
  lemma StatusAccepted(c: Crypto, entry: bytes, s: VaultStatus)
    ensures ParseStatus(c, Some(entry)) == Some(s)
            <==> (&& c.parseJson(entry).Some?
                  && Member(c.parseJson(entry).value, "initialized") == Some(JBool(s.initialized))
                  && IsTimestamp(Member(c.parseJson(entry).value, "lastBackup"), s.lastBackup)
                  && IsTimestamp(Member(c.parseJson(entry).value, "lastRestore"), s.lastRestore))
  {
  }

  // ------------------------------------------------------------------ the four-block key wrap loops

  /** The vault's own copy of the wrap: six rounds over four blocks, with its own step number. */
  method WrapFourBlocks(c: Cipher, kek: Key, plaintext: Key) returns (out: bytes)
    ensures Wrap(c, kek, plaintext) == Ok(out)
  {
    hide XorCounter, Halves, Flatten;
    ghost var start := Registers(INITIAL_VALUE, Halves(plaintext));
    var blocks := new Half[4](i requires 0 <= i < 4 => Halves(plaintext)[i]);
    var a := new byte[8](_ => 0xa6);
    assert blocks[..] == start.r && a[..] == INITIAL_VALUE;
    for j := 0 to 6
      invariant Registers(a[..], blocks[..]) == Forward(c, kek, j, start)
    {
      ghost var round := Registers(a[..], blocks[..]);
      for i := 0 to 4
        invariant Registers(a[..], blocks[..]) == RoundForward(c, kek, j, i, round)
      {
        ghost var before := Registers(a[..], blocks[..]);
        var (hi, lo) := c.enc(kek, a[..], blocks[i]);
        CopyHalf(a, hi);
        XorCounterInPlace(a, 4 * j + i + 1);
        blocks[i] := lo;
        assert blocks[..] == before.r[i := lo];
        assert Registers(a[..], blocks[..]) == StepForward(c, kek, j, i, before);
      }
    }
    out := a[..] + Flatten(blocks[..]);
  }

  /** One round of the vault's unwrap: the register is masked in a copy before each decryption. */
  method UnwrapFourBlockRound(c: Cipher, kek: Key, j: nat, a: array<byte>, blocks: array<Half>)
    requires a.Length == 8 && blocks.Length == 4
    modifies a, blocks
    ensures Registers(a[..], blocks[..]) == RoundBackward(c, kek, j, 4, old(Registers(a[..], blocks[..])))
  {
    hide XorCounter;
    ghost var round := RoundBackward(c, kek, j, 4, Registers(a[..], blocks[..]));
    for i := 4 downto 0
      invariant RoundBackward(c, kek, j, i, Registers(a[..], blocks[..])) == round
    {
      ghost var before := Registers(a[..], blocks[..]);
      var masked := new byte[8](k requires 0 <= k < 8 reads a => a[k]);
      assert masked[..] == before.a;
      XorCounterInPlace(masked, 4 * j + i + 1);
      var (hi, lo) := c.dec(kek, masked[..], blocks[i]);
      CopyHalf(a, hi);
      blocks[i] := lo;
      assert blocks[..] == before.r[i := lo];
      assert Registers(a[..], blocks[..]) == StepBackward(c, kek, j, i, before);
    }
  }

  /** The vault's own copy of the unwrap: six rounds down over four blocks, with its own step number. */
  method UnwrapFourBlocks(c: Cipher, kek: Key, wrapped: bytes) returns (res: Result<Key, CekDecodeError>)
    ensures res == UnwrapContentKey(c, kek, wrapped)
  {
    hide Halves, Flatten, RoundBackward;
    if |wrapped| != 40 {
      return Err(Corrupt);
    }
    ghost var start := Registers(wrapped[..8], Halves(wrapped[8..]));
    var blocks := new Half[4](i requires 0 <= i < 4 => Halves(wrapped[8..])[i]);
    var a := new byte[8](i requires 0 <= i < 8 => wrapped[i]);
    assert blocks[..] == start.r && a[..] == wrapped[..8];
    for j := 6 downto 0
      invariant Backward(c, kek, j, Registers(a[..], blocks[..])) == Backward(c, kek, 6, start)
    {
      UnwrapFourBlockRound(c, kek, j, a, blocks);
    }
    if a[..] != INITIAL_VALUE {
      return Err(Authentication);
    }
    return Ok(Flatten(blocks[..]));
  }
}

/** What the vault's tokens say, member by member: the format of a fresh token, and exactly which tokens open. */
module VaultTokens {
  import opened Wrappers
  import opened Bytes
  import opened Text
  import opened Utf8
  import opened AesKeyWrap
  import opened DidDocument
  import opened VaultJwe
  import Base64Url

  // ------------------------------------------------------------------ tokens that wrap a key

  /** The five segments of a token, the last four of them as bytes; the header is kept as text. */
  predicate Segments(jwe: string, parts: CompactParts) {
    var s := Split(jwe, '.');
    && |s| == 5 && s[0] == parts.protected_ && s[0] != ""
    && (if parts.encryptedKey.None? then s[1] == "" else s[1] != "" && Base64Url.Decode(s[1]) == parts.encryptedKey)
    && Base64Url.Decode(s[2]) == Some(parts.iv) && Base64Url.Decode(s[3]) == Some(parts.ciphertext)
    && Base64Url.Decode(s[4]) == Some(parts.tag)
  }

  lemma SplitIff(jwe: string, parts: CompactParts)
    ensures SplitCompact(jwe) == Some(parts) <==> Segments(jwe, parts)
  {
    hide Base64Url.Decode, Split;
    EmptyDecodes();
  }

  /** A header under its base64url text. */
  predicate HeaderIs(c: Crypto, protected_: string, header: Json) {
    && header.JObject? && Base64Url.Decode(protected_).Some?
    && c.parseJson(Base64Url.Decode(protected_).value) == Some(header)
  }

  /** The JWK of a content key. */
  predicate KeyJson(c: Crypto, plaintext: bytes, cek: Key) {
    && c.parseJson(plaintext).Some?
    && var j := c.parseJson(plaintext).value;
    && Member(j, "kty") == Some(JString("oct"))
    && Member(j, "k").Some? && Member(j, "k").value.JString?
    && Base64Url.Decode(Member(j, "k").value.s) == Some(cek)
    && Member(j, "kid") == Some(JString(c.octThumbprint(Member(j, "k").value.s)))
  }

  lemma KeyJsonIff(c: Crypto, plaintext: bytes, cek: Key)
    ensures ParseOctJwk(c, plaintext) == Some(cek) <==> KeyJson(c, plaintext, cek)
  {
    hide Base64Url.Decode;
  }

  /** What a token must say to hold a key under a password: PBES2 and AES-GCM, a work factor from 1 to the largest
      32-bit number, a salt and a key segment. */
  predicate Wrapping(c: Crypto, parts: CompactParts, header: Json, p2c: u32, salt: bytes) {
    && HeaderIs(c, parts.protected_, header)
    && Member(header, "alg") == Some(JString("PBES2-HS512+A256KW"))
    && Member(header, "enc") == Some(JString("A256GCM"))
    && p2c >= 1 && Member(header, "p2c") == Some(JNumber(p2c))
    && Member(header, "p2s").Some? && Member(header, "p2s").value.JString?
    && Base64Url.Decode(Member(header, "p2s").value.s) == Some(salt)
    && parts.encryptedKey.Some?
  }

  /** The key segment is the wrap of `contentKey` under the password's key, which opens the payload with the header
      text as associated data, and the payload is the JWK of `cek`. */
  predicate Unsealed(c: Crypto, password: bytes, parts: CompactParts, p2c: u32, salt: bytes, contentKey: Key,
                     plaintext: bytes) {
    var kek := c.pbkdf2(password, ToUtf8("PBES2-HS512+A256KW") + [0] + salt, p2c);
    && parts.encryptedKey.Some? && Wrap(c.cipher, kek, contentKey) == Ok(parts.encryptedKey.value)
    && c.open(contentKey, parts.iv, ToUtf8(parts.protected_), parts.ciphertext + parts.tag) == Some(plaintext)
  }

  /** Some content key wrapped in the token opens its payload. */
  ghost predicate Opens(c: Crypto, password: bytes, parts: CompactParts, p2c: u32, salt: bytes, cek: Key) {
    exists contentKey: Key, plaintext: bytes ::
      Unsealed(c, password, parts, p2c, salt, contentKey, plaintext) && KeyJson(c, plaintext, cek)
  }

  lemma UnwrapsIff(c: Cipher, kek: Key, wrapped: bytes, contentKey: Key)
    requires Bijective(c)
    ensures UnwrapContentKey(c, kek, wrapped) == Ok(contentKey) <==> Wrap(c, kek, contentKey) == Ok(wrapped)
  {
    hide Forward, Backward, Bijective, Halves, Flatten;
    UnwrapWrap(c, kek, contentKey);
    if UnwrapContentKey(c, kek, wrapped) == Ok(contentKey) {
      WrapUnwrap(c, kek, wrapped);
    }
  }

  lemma NumberIs(h: Json, name: string, n: u64)
    ensures U64Member(h, name) == Some(n) <==> Member(h, name) == Some(JNumber(n))
  {
  }

  /** Opening after the header has been read. */
  lemma OpenedParts(c: Crypto, jwe: string, password: bytes, parts: CompactParts, h: Json, p2c: u32, salt: bytes)
    requires SplitCompact(jwe) == Some(parts) && Wrapping(c, parts, h, p2c, salt)
    ensures var kek := c.pbkdf2(password, ToUtf8("PBES2-HS512+A256KW") + [0] + salt, p2c);
            var contentKey := UnwrapContentKey(c.cipher, kek, parts.encryptedKey.value);
            UnwrapCek(c, jwe, password)
            == if contentKey.Err? then Err(contentKey.error)
               else if OpenParts(c, contentKey.value, parts).None? then Err(Authentication)
               else
                 match ParseOctJwk(c, OpenParts(c, contentKey.value, parts).value)
                 case None => Err(Corrupt)
                 case Some(cek) => Ok(OpenedCek(cek, CekHeader(p2c, salt, StringMember(h, "cty"))))
  {
    hide SplitCompact, Base64Url.Decode, UnwrapContentKey, OpenParts, ParseOctJwk, ToUtf8;
    NumberIs(h, "p2c", p2c);
  }

  lemma WrappingHolds(c: Crypto, jwe: string, password: bytes) returns (parts: CompactParts, h: Json)
    requires UnwrapCek(c, jwe, password).Ok?
    ensures var found := UnwrapCek(c, jwe, password).value;
            && SplitCompact(jwe) == Some(parts) && Wrapping(c, parts, h, found.header.p2c, found.header.p2s)
  {
    hide SplitCompact, Base64Url.Decode, UnwrapContentKey, OpenParts, ParseOctJwk, ToUtf8;
    parts := SplitCompact(jwe).value;
    h := DecodeHeader(c, parts.protected_).value;
    NumberIs(h, "p2c", U64Member(h, "p2c").value);
  }

  /** A token opens to a key exactly when it says what such a token must and holds that key. */
  lemma OpensIff(c: Crypto, jwe: string, password: bytes, found: OpenedCek)
    requires Sound(c)
    ensures UnwrapCek(c, jwe, password) == Ok(found)
            <==> exists parts: CompactParts, h: Json ::
                   && Segments(jwe, parts) && Wrapping(c, parts, h, found.header.p2c, found.header.p2s)
                   && StringMember(h, "cty") == found.header.cty
                   && Opens(c, password, parts, found.header.p2c, found.header.p2s, found.cek)
  {
    hide SplitCompact, Segments, UnwrapCek, UnwrapContentKey, ParseOctJwk, KeyJson, Wrapping, Bijective, Wrap, ToUtf8;
    if UnwrapCek(c, jwe, password) == Ok(found) {
      var parts, h := WrappingHolds(c, jwe, password);
      SplitIff(jwe, parts);
      OpenedParts(c, jwe, password, parts, h, found.header.p2c, found.header.p2s);
      OpensHolds(c, password, parts, h, found.header.p2c, found.header.p2s, found.cek);
    }
    if parts: CompactParts, h: Json :|
      && Segments(jwe, parts) && Wrapping(c, parts, h, found.header.p2c, found.header.p2s)
      && StringMember(h, "cty") == found.header.cty
      && Opens(c, password, parts, found.header.p2c, found.header.p2s, found.cek)
    {
      SplitIff(jwe, parts);
      OpenedParts(c, jwe, password, parts, h, found.header.p2c, found.header.p2s);
      OpensHolds(c, password, parts, h, found.header.p2c, found.header.p2s, found.cek);
    }
  }

  lemma OpensHolds(c: Crypto, password: bytes, parts: CompactParts, h: Json, p2c: u32, salt: bytes, cek: Key)
    requires Sound(c) && Wrapping(c, parts, h, p2c, salt)
    ensures parts.encryptedKey.Some?
    ensures var kek := c.pbkdf2(password, ToUtf8("PBES2-HS512+A256KW") + [0] + salt, p2c);
            var contentKey := UnwrapContentKey(c.cipher, kek, parts.encryptedKey.value);
            Opens(c, password, parts, p2c, salt, cek)
            <==> (&& contentKey.Ok? && OpenParts(c, contentKey.value, parts).Some?
                  && ParseOctJwk(c, OpenParts(c, contentKey.value, parts).value) == Some(cek))
  {
    hide UnwrapContentKey, ParseOctJwk, KeyJson, Bijective, Wrap, ToUtf8;
    var kek := c.pbkdf2(password, ToUtf8("PBES2-HS512+A256KW") + [0] + salt, p2c);
    var wrapped := parts.encryptedKey.value;
    var contentKey := UnwrapContentKey(c.cipher, kek, wrapped);
    if contentKey.Ok? {
      UnwrapsIff(c.cipher, kek, wrapped, contentKey.value);
      if OpenParts(c, contentKey.value, parts).Some? {
        KeyJsonIff(c, OpenParts(c, contentKey.value, parts).value, cek);
        assert Unsealed(c, password, parts, p2c, salt, contentKey.value, OpenParts(c, contentKey.value, parts).value);
      }
    }
    if other: Key, plaintext: bytes :|
      Unsealed(c, password, parts, p2c, salt, other, plaintext) && KeyJson(c, plaintext, cek)
    {
      UnwrapsIff(c.cipher, kek, wrapped, other);
      KeyJsonIff(c, plaintext, cek);
    }
  }

  /** The token says what it must and has a 40-byte key segment, but no content key wrapped in it opens the
      payload. */
  ghost predicate Refuses(c: Crypto, jwe: string, password: bytes, parts: CompactParts, h: Json, p2c: u32,
                          salt: bytes) {
    && Segments(jwe, parts) && Wrapping(c, parts, h, p2c, salt) && |parts.encryptedKey.value| == 40
    && forall k: Key, m: bytes :: !Unsealed(c, password, parts, p2c, salt, k, m)
  }

  /** A password is reported wrong exactly when the token refuses it. */
  lemma WrongPasswordIff(c: Crypto, jwe: string, password: bytes)
    requires Sound(c)
    ensures UnwrapCek(c, jwe, password) == Err(Authentication)
            <==> exists parts: CompactParts, h: Json, p2c: u32, salt: bytes ::
                   Refuses(c, jwe, password, parts, h, p2c, salt)
  {
    hide SplitCompact, Segments, UnwrapCek, Sound, Wrapping, Unsealed;
    if UnwrapCek(c, jwe, password) == Err(Authentication) {
      var parts, h, p2c, salt := WrongPasswordWraps(c, jwe, password);
      RefusesIff(c, jwe, password, parts, h, p2c, salt);
    }
    if parts: CompactParts, h: Json, p2c: u32, salt: bytes :| Refuses(c, jwe, password, parts, h, p2c, salt) {
      SplitIff(jwe, parts);
      RefusesIff(c, jwe, password, parts, h, p2c, salt);
    }
  }

  lemma RefusesIff(c: Crypto, jwe: string, password: bytes, parts: CompactParts, h: Json, p2c: u32, salt: bytes)
    requires Sound(c) && SplitCompact(jwe) == Some(parts) && Wrapping(c, parts, h, p2c, salt)
    ensures UnwrapCek(c, jwe, password) == Err(Authentication) <==> Refuses(c, jwe, password, parts, h, p2c, salt)
  {
    hide SplitCompact, Segments, UnwrapCek, UnwrapContentKey, ParseOctJwk, Wrapping, Bijective, Wrap, ToUtf8, Unsealed;
    SplitIff(jwe, parts);
    OpenedParts(c, jwe, password, parts, h, p2c, salt);
    UnsealedIff(c, password, parts, h, p2c, salt);
    var kek := c.pbkdf2(password, ToUtf8("PBES2-HS512+A256KW") + [0] + salt, p2c);
    var contentKey := UnwrapContentKey(c.cipher, kek, parts.encryptedKey.value);
    assert contentKey.Err? ==> contentKey.error.Authentication? || contentKey.error.Corrupt?;
  }

  lemma WrongPasswordWraps(c: Crypto, jwe: string, password: bytes)
    returns (parts: CompactParts, h: Json, p2c: u32, salt: bytes)
    requires UnwrapCek(c, jwe, password) == Err(Authentication)
    ensures SplitCompact(jwe) == Some(parts) && Wrapping(c, parts, h, p2c, salt)
  {
    hide SplitCompact, Base64Url.Decode, UnwrapContentKey, OpenParts, ParseOctJwk, ToUtf8;
    parts := SplitCompact(jwe).value;
    h := DecodeHeader(c, parts.protected_).value;
    p2c := U64Member(h, "p2c").value;
    salt := Base64Url.Decode(StringMember(h, "p2s").value).value;
    NumberIs(h, "p2c", p2c);
  }

  lemma UnsealedIff(c: Crypto, password: bytes, parts: CompactParts, h: Json, p2c: u32, salt: bytes)
    requires Sound(c) && Wrapping(c, parts, h, p2c, salt)
    ensures parts.encryptedKey.Some?
    ensures var kek := c.pbkdf2(password, ToUtf8("PBES2-HS512+A256KW") + [0] + salt, p2c);
            var contentKey := UnwrapContentKey(c.cipher, kek, parts.encryptedKey.value);
            && (|parts.encryptedKey.value| == 40 <==> contentKey != Err(Corrupt))
            && ((exists k: Key, m: bytes :: Unsealed(c, password, parts, p2c, salt, k, m))
                <==> contentKey.Ok? && OpenParts(c, contentKey.value, parts).Some?)
  {
    hide Bijective, Wrap, ToUtf8, Unwrap;
    var kek := c.pbkdf2(password, ToUtf8("PBES2-HS512+A256KW") + [0] + salt, p2c);
    var wrapped := parts.encryptedKey.value;
    var contentKey := UnwrapContentKey(c.cipher, kek, wrapped);
    UnwrappedLength(c.cipher, kek, wrapped);
    hide UnwrapContentKey;
    if contentKey.Ok? {
      UnwrapsIff(c.cipher, kek, wrapped, contentKey.value);
      if OpenParts(c, contentKey.value, parts).Some? {
        assert Unsealed(c, password, parts, p2c, salt, contentKey.value, OpenParts(c, contentKey.value, parts).value);
      }
    }
    if k: Key, m: bytes :| Unsealed(c, password, parts, p2c, salt, k, m) {
      UnwrapsIff(c.cipher, kek, wrapped, k);
    }
  }

  lemma UnwrappedLength(c: Cipher, kek: Key, wrapped: bytes)
    ensures |wrapped| == 40 && Unwrap(c, kek, wrapped).Ok? ==> |Unwrap(c, kek, wrapped).value| == 32
  {
    hide Backward, Halves, Flatten;
  }

  /** A fresh token: its header, its key segment, its nonce and its sealed payload, which is the JWK of the key. */
  lemma TokenFormat(c: Crypto, password: bytes, cek: Key, salt: bytes, p2c: u32, contentKey: Key, iv: Iv)
    returns (parts: CompactParts, plaintext: bytes)
    requires Sound(c) && p2c >= 1
    ensures WrapCek(c, password, cek, salt, p2c, contentKey, iv).Some?
    ensures Segments(WrapCek(c, password, cek, salt, p2c, contentKey, iv).value, parts)
    ensures HeaderIs(c, parts.protected_,
                     JObject(map["alg" := JString("PBES2-HS512+A256KW"), "enc" := JString("A256GCM"),
                                 "cty" := JString("text/plain"), "p2c" := JNumber(p2c),
                                 "p2s" := JString(Base64Url.Encode(salt))]))
    ensures parts.encryptedKey.Some?
    ensures Wrap(c.cipher, c.pbkdf2(password, ToUtf8("PBES2-HS512+A256KW") + [0] + salt, p2c), contentKey)
            == Ok(parts.encryptedKey.value)
    ensures parts.iv == iv
    ensures parts.ciphertext + parts.tag == c.seal(contentKey, iv, ToUtf8(parts.protected_), plaintext)
    ensures KeyJson(c, plaintext, cek)
  {
    hide Wrap, UnwrapContentKey, Base64Url.Encode, Base64Url.Decode, Compact, SplitCompact, OpenParts, ToUtf8,
      WrapTyped, ParseOctJwk, OctJwk, KeyJson, Segments;
    plaintext := c.writeJson(OctJwk(c, cek));
    parts := WrapTypedParts(c, password, salt, p2c, TEXT_PLAIN, plaintext, contentKey, iv);
    DecodeEncodedHeader(c, CekJoseHeader(Base64Url.Encode(salt), p2c, TEXT_PLAIN));
    SplitOfCompact(parts);
    SplitIff(Compact(parts), parts);
    ParseOfOct(c, cek);
    KeyJsonIff(c, plaintext, cek);
  }

  // ------------------------------------------------------------------ direct tokens

  /** A fresh direct token: its header, no key segment, its nonce and its sealed payload. */
  lemma DirectFormat(c: Crypto, plaintext: bytes, cek: Key, cty: Option<string>, iv: Iv) returns (parts: CompactParts)
    requires Sound(c)
    ensures EncryptDirect(c, plaintext, cek, cty, iv).Some?
    ensures Segments(EncryptDirect(c, plaintext, cek, cty, iv).value, parts) && parts.encryptedKey == None
    ensures var required := map["alg" := JString("dir"), "enc" := JString("A256GCM")];
            HeaderIs(c, parts.protected_,
                     JObject(if cty.None? then required else required["cty" := JString(cty.value)]))
    ensures parts.iv == iv && parts.ciphertext + parts.tag == c.seal(cek, iv, ToUtf8(parts.protected_), plaintext)
  {
    hide Base64Url.Encode, Base64Url.Decode, Compact, SplitCompact, OpenParts, Segments, ToUtf8, SealParts;
    DecodeEncodedHeader(c, DirectHeader(cty));
    var protected_ := Base64Url.Encode(c.writeJson(DirectHeader(cty)));
    OpenOfSealed(c, cek, iv, protected_, plaintext, None);
    parts := SealParts(c, cek, iv, protected_, plaintext, None).value;
    SplitOfCompact(parts);
    SplitIff(Compact(parts), parts);
  }

  /** A direct token opens exactly when it has no key segment, names direct encryption and AES-GCM, and its payload
      opens under the key with the header text as associated data. */
  lemma DirectOpensIff(c: Crypto, jwe: string, cek: Key, plaintext: bytes)
    ensures DecryptDirect(c, jwe, cek) == Some(plaintext)
            <==> exists parts: CompactParts, h: Json ::
                   && Segments(jwe, parts) && parts.encryptedKey == None && HeaderIs(c, parts.protected_, h)
                   && Member(h, "alg") == Some(JString("dir")) && Member(h, "enc") == Some(JString("A256GCM"))
                   && c.open(cek, parts.iv, ToUtf8(parts.protected_), parts.ciphertext + parts.tag) == Some(plaintext)
  {
    hide Base64Url.Decode, SplitCompact, Segments, ToUtf8;
    if DecryptDirect(c, jwe, cek) == Some(plaintext) {
      var parts := SplitCompact(jwe).value;
      SplitIff(jwe, parts);
      assert HeaderIs(c, parts.protected_, DecodeHeader(c, parts.protected_).value);
    }
    if parts: CompactParts, h: Json :|
      && Segments(jwe, parts) && parts.encryptedKey == None && HeaderIs(c, parts.protected_, h)
      && Member(h, "alg") == Some(JString("dir")) && Member(h, "enc") == Some(JString("A256GCM"))
      && c.open(cek, parts.iv, ToUtf8(parts.protected_), parts.ciphertext + parts.tag) == Some(plaintext)
    {
      SplitIff(jwe, parts);
    }
  }
}

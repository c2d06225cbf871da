/** Hierarchical key derivation: one HKDF step per path segment. */
module KeyDerivation {
  import opened Wrappers
  import opened Bytes
  import opened Utf8

  type PrivateKey = b: bytes | |b| == 32 witness seq(32, _ => 0)
  type PublicKey = bytes

  datatype KeyError =
    | NoRootKey | KeyNotFound | NotOkp | NotX25519 | MissingPrivateKey | BadKeyLength | EmptySegment | PathNotFound

  datatype Kdf = Kdf(hkdf: (bytes, bytes) -> PrivateKey, publicOf: PrivateKey -> PublicKey)

  predicate NoEmptySegment(path: seq<string>) {
    forall i :: 0 <= i < |path| ==> path[i] != ""
  }

  function DerivePath(w: Kdf, key: bytes, path: seq<string>): Result<bytes, KeyError>
    decreases |path|
  {
    if path == [] then Ok(key)
    else if path[0] == "" then Err(EmptySegment)
    else DerivePath(w, w.hkdf(key, ToUtf8(path[0])), path[1..])
  }

  /** Deriving fails on exactly the paths with an empty segment. */
  lemma {:induction false} DeriveSucceedsIff(w: Kdf, key: bytes, path: seq<string>)
    ensures DerivePath(w, key, path).Ok? <==> NoEmptySegment(path)
    ensures DerivePath(w, key, path).Ok? && |key| == 32 ==> |DerivePath(w, key, path).value| == 32
    ensures DerivePath(w, key, path).Err? ==> DerivePath(w, key, path).error == EmptySegment
    decreases |path|
  {
    if path != [] && path[0] != "" {
      DeriveSucceedsIff(w, w.hkdf(key, ToUtf8(path[0])), path[1..]);
      assert path == [path[0]] + path[1..];
    }
  }

  /** The keys on the way along a path: each is one HKDF step from the one before, with the segment's bytes. */
  ghost predicate Chain(w: Kdf, key: bytes, path: seq<string>, chain: seq<bytes>) {
    && |chain| == |path| + 1 && chain[0] == key
    && forall i :: 0 <= i < |path| ==> chain[i + 1] == w.hkdf(chain[i], ToUtf8(path[i]))
  }

  /** The derived key is the last of the chain of keys along the path, and there is no other such chain. */
  lemma {:induction false} DeriveIsChain(w: Kdf, key: bytes, path: seq<string>) returns (chain: seq<bytes>)
    requires NoEmptySegment(path)
    ensures Chain(w, key, path, chain) && DerivePath(w, key, path) == Ok(chain[|path|])
    ensures forall other :: Chain(w, key, path, other) ==> other == chain
    decreases |path|
  {
    hide ToUtf8;
    if path == [] {
      chain := [key];
    } else {
      var next := w.hkdf(key, ToUtf8(path[0]));
      var rest := DeriveIsChain(w, next, path[1..]);
      chain := [key] + rest;
      forall other | Chain(w, key, path, other)
        ensures other == chain
      {
        assert Chain(w, next, path[1..], other[1..]);
        assert other == [other[0]] + other[1..];
      }
    }
  }

  /** Deriving along a path and then along another is deriving along both. */
  lemma {:induction false} DeriveAppend(w: Kdf, key: bytes, path: seq<string>, rest: seq<string>)
    ensures DerivePath(w, key, path + rest)
            == if DerivePath(w, key, path).Ok? then DerivePath(w, DerivePath(w, key, path).value, rest)
              else Err(EmptySegment)
    decreases |path|
  {
    if path == [] {
      assert path + rest == rest;
    } else if path[0] != "" {
      assert (path + rest)[1..] == path[1..] + rest;
      DeriveAppend(w, w.hkdf(key, ToUtf8(path[0])), path[1..], rest);
    }
  }

  method DerivePrivateKeyBytes(w: Kdf, key: bytes, path: seq<string>) returns (r: Result<bytes, KeyError>)
    ensures r == DerivePath(w, key, path)
  {
    var current := key;
    var i := 0;
    while i < |path|
      invariant 0 <= i <= |path|
      invariant DerivePath(w, current, path[i..]) == DerivePath(w, key, path)
    {
      if path[i] == "" {
        return Err(EmptySegment);
      }
      current := w.hkdf(current, ToUtf8(path[i]));
      assert path[i..][1..] == path[i + 1..];
      i := i + 1;
    }
    return Ok(current);
  }

  // ------------------------------------------------------------------ the key manager

  datatype PrivateJwk = Okp(curve: string, d: Option<bytes>) | OtherJwk

  type Keys = map<string, PrivateJwk>

  /** The stored X25519 private key. */
  function StoredKey(keys: Keys, uri: string): Result<PrivateKey, KeyError> {
    if uri !in keys then Err(KeyNotFound)
    else
      match keys[uri]
      case OtherJwk => Err(NotOkp)
      case Okp(curve, d) =>
        if curve != "X25519" then Err(NotX25519)
        else if d.None? then Err(MissingPrivateKey)
        else if |d.value| != 32 then Err(BadKeyLength)
        else Ok(d.value)
  }

  function DerivePrivateJwk(w: Kdf, keys: Keys, uri: string, path: seq<string>): Result<PrivateKey, KeyError> {
    var key :- StoredKey(keys, uri);
    DeriveSucceedsIff(w, key, path);
    var derived :- DerivePath(w, key, path);
    Ok(derived)
  }

  function DerivePublicJwk(w: Kdf, keys: Keys, uri: string, path: seq<string>): Result<PublicKey, KeyError> {
    var key :- DerivePrivateJwk(w, keys, uri, path);
    Ok(w.publicOf(key))
  }

  method DeriveInKeyManager(w: Kdf, keys: Keys, uri: string,
                            path: seq<string>) returns (r: Result<PrivateKey, KeyError>)
    ensures r == DerivePrivateJwk(w, keys, uri, path)
  {
    var stored := StoredKey(keys, uri);
    if stored.Err? {
      return Err(stored.error);
    }
    var key: PrivateKey := stored.value;
    var i := 0;
    while i < |path|
      invariant 0 <= i <= |path|
      invariant DerivePath(w, key, path[i..]) == DerivePath(w, stored.value, path)
    {
      if path[i] == "" {
        return Err(EmptySegment);
      }
      key := w.hkdf(key, ToUtf8(path[i]));
      assert path[i..][1..] == path[i + 1..];
      i := i + 1;
    }
    return Ok(key);
  }

  /** A key can be derived from exactly when it is stored as an X25519 key with its 32 private bytes. */
  lemma StoredKeyIff(keys: Keys, uri: string, key: PrivateKey)
    ensures StoredKey(keys, uri) == Ok(key) <==> uri in keys && keys[uri] == Okp("X25519", Some(key))
  {
  }

  /** The key manager's key for a path is the last of the chain from the stored bytes, and the public key it gives
      out is the public half of that. */
  lemma DerivedKeyIsChain(w: Kdf, keys: Keys, uri: string, root: PrivateKey,
                          path: seq<string>) returns (chain: seq<bytes>)
    requires uri in keys && keys[uri] == Okp("X25519", Some(root)) && NoEmptySegment(path)
    ensures Chain(w, root, path, chain) && |chain[|path|]| == 32
    ensures DerivePrivateJwk(w, keys, uri, path) == Ok(chain[|path|])
    ensures DerivePublicJwk(w, keys, uri, path) == Ok(w.publicOf(chain[|path|]))
  {
    chain := DeriveIsChain(w, root, path);
    DeriveSucceedsIff(w, root, path);
  }

  /** Extending a derived key along more segments gives the key of the longer path. */
  lemma ExtendDerivedKey(w: Kdf, keys: Keys, uri: string, path: seq<string>, rest: seq<string>)
    requires DerivePrivateJwk(w, keys, uri, path).Ok?
    ensures DerivePrivateJwk(w, keys, uri, path + rest)
            == DerivePath(w, DerivePrivateJwk(w, keys, uri, path).value, rest)
  {
    DeriveAppend(w, StoredKey(keys, uri).value, path, rest);
  }
}

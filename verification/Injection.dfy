/** Encryption injection: every record position of a protocol gets the public key derived for its path. */
module Injection {
  import opened Wrappers
  import opened KeyDerivation
  import opened Protocols
  import BTree

  const SCHEME: string := "protocolPath"

  type Path = seq<string>

  // ------------------------------------------------------------------ collecting the paths

  /** The paths of the nodes that are not references, parents first, siblings in name order. */
  function Collect(r: RuleSet, current: Path): seq<Path>
    decreases r, 1, 0
  {
    (if r.rule.reference.None? then [current] else []) + Below(r, BTree.InOrder(r.rules.Keys), current)
  }

  function Below(r: RuleSet, names: seq<string>, current: Path): seq<Path>
    requires forall n <- names :: n in r.rules
    decreases r, 0, |names|
  {
    if names == [] then []
    else Collect(r.rules[names[0]], current + [names[0]]) + Below(r, names[1..], current)
  }

  lemma BelowNext(r: RuleSet, names: seq<string>, i: nat, current: Path)
    requires i < |names| && forall n <- names :: n in r.rules
    ensures Below(r, names[i..], current)
            == Collect(r.rules[names[i]], current + [names[i]]) + Below(r, names[i + 1..], current)
  {
  }

  lemma CollectParts(r: RuleSet, current: Path)
    ensures Collect(r, current) == (if r.rule.reference.None? then [current] else [])
            + Below(r, BTree.InOrder(r.rules.Keys), current)
  {
  }

  method CollectProtocolPaths(r: RuleSet, current: Path, paths: seq<Path>) returns (out: seq<Path>)
    ensures out == paths + Collect(r, current)
    decreases r
  {
    hide Collect, Below, BTree.InOrder;
    CollectParts(r, current);
    out := paths;
    if r.rule.reference.None? {
      out := out + [current];
    }
    var names := BTree.InOrder(r.rules.Keys);
    assert names[0..] == names;
    var i := 0;
    while i < |names|
      invariant 0 <= i <= |names|
      invariant paths + Collect(r, current) == out + Below(r, names[i..], current)
    {
      BelowNext(r, names, i, current);
      out := CollectProtocolPaths(r.rules[names[i]], current + [names[i]], out);
      i := i + 1;
    }
    BelowNone(r, current);
    assert names[i..] == [] && out + [] == out;
  }

  lemma BelowNone(r: RuleSet, current: Path)
    ensures Below(r, [], current) == []
  {
  }

  predicate NonReferenceAt(r: RuleSet, path: Path) {
    At(r, path).Some? && At(r, path).value.reference.None?
  }

  /** Exactly the paths of the non-reference nodes are collected. */
  lemma {:induction false} CollectExact(r: RuleSet, current: Path, p: Path)
    ensures p in Collect(r, current) <==> current <= p && NonReferenceAt(r, p[|current|..])
    decreases r, 1, 0
  {
    var names := BTree.InOrder(r.rules.Keys);
    BelowExact(r, names, current, p);
    if current <= p {
      if p == current {
        assert p[|current|..] == [];
      } else {
        assert p[|current|..] != [];
      }
    }
  }

  lemma {:induction false} BelowExact(r: RuleSet, names: seq<string>, current: Path, p: Path)
    requires forall n <- names :: n in r.rules
    ensures p in Below(r, names, current) <==> current < p && p[|current|] in names && NonReferenceAt(r, p[|current|..])
    decreases r, 0, |names|
  {
    hide Collect, At, BTree.InOrder;
    if names != [] {
      var name := names[0];
      CollectExact(r.rules[name], current + [name], p);
      BelowExact(r, names[1..], current, p);
      LongerPrefix(current, name, p);
      if current + [name] <= p {
        AtCons(r, name, p[|current| + 1..]);
      }
    }
  }

  lemma LongerPrefix(current: Path, name: string, p: Path)
    ensures current + [name] <= p <==> current < p && p[|current|] == name
    ensures current + [name] <= p ==> p[|current|..] == [name] + p[|current| + 1..]
  {
  }

  // ------------------------------------------------------------------ setting one key

  function SetAt(r: RuleSet, path: Path, key: PublicKey): Result<RuleSet, KeyError>
    decreases |path|
  {
    if path == [] then Ok(r.(rule := r.rule.(keyAgreement := Some(key))))
    else if path[0] !in r.rules then Err(PathNotFound)
    else
      var child :- SetAt(r.rules[path[0]], path[1..], key);
      Ok(r.(rules := r.rules[path[0] := child]))
  }

  function SetPathEncryption(root: RuleSet, path: Path, key: PublicKey): Result<RuleSet, KeyError> {
    if path == [] then Err(PathNotFound) else SetAt(root, path, key)
  }

  /** Setting a key finds exactly the paths of the tree and changes nothing but that one node's key. */
  lemma {:induction false} SetAtExact(r: RuleSet, path: Path, key: PublicKey, p: Path)
    ensures SetAt(r, path, key).Ok? <==> At(r, path).Some?
    ensures SetAt(r, path, key).Ok? ==>
              At(SetAt(r, path, key).value, p) == if p == path then Some(At(r, p).value.(keyAgreement := Some(key)))
                else At(r, p)
    decreases |path|
  {
    if path != [] && path[0] in r.rules {
      if p != [] && p[0] == path[0] {
        SetAtExact(r.rules[path[0]], path[1..], key, p[1..]);
        assert p == [p[0]] + p[1..] && path == [path[0]] + path[1..];
      } else {
        SetAtExact(r.rules[path[0]], path[1..], key, []);
      }
    }
  }

  // ------------------------------------------------------------------ the injection

  function InjectPaths(w: Kdf, keys: Keys, rootKeyId: string, protocol: string, tree: RuleSet,
                       paths: seq<Path>): Result<RuleSet, KeyError>
    decreases |paths|
  {
    if paths == [] then Ok(tree)
    else
      var next :- GiveKey(w, keys, rootKeyId, protocol, tree, paths[0]);
      InjectPaths(w, keys, rootKeyId, protocol, next, paths[1..])
  }

  /** `rootKeyId` names the tenant's first key-agreement method, if it is an X25519 key. */
  function Inject(w: Kdf, keys: Keys, rootKeyId: Option<string>, d: Definition): Result<Definition, KeyError> {
    if rootKeyId.None? then Err(NoRootKey)
    else
      var key :- DerivePublicJwk(w, keys, rootKeyId.value, [SCHEME, d.protocol]);
      var tree :- InjectPaths(w, keys, rootKeyId.value, d.protocol, Root(d), Collect(Root(d), []));
      Ok(d.(keyAgreement := Some(key), structure := tree.rules))
  }

  function GiveKey(w: Kdf, keys: Keys, rootKeyId: string, protocol: string, tree: RuleSet,
                   path: Path): Result<RuleSet, KeyError> {
    var key :- DerivePublicJwk(w, keys, rootKeyId, [SCHEME, protocol] + path);
    SetPathEncryption(tree, path, key)
  }

  lemma InjectNext(w: Kdf, keys: Keys, rootKeyId: string, protocol: string, tree: RuleSet, paths: seq<Path>, i: nat)
    requires i < |paths|
    ensures var next := GiveKey(w, keys, rootKeyId, protocol, tree, paths[i]);
            InjectPaths(w, keys, rootKeyId, protocol, tree, paths[i..])
            == if next.Err? then next else InjectPaths(w, keys, rootKeyId, protocol, next.value, paths[i + 1..])
  {
  }

  method InjectProtocolEncryption(w: Kdf, keys: Keys, rootKeyId: Option<string>,
                                  d: Definition) returns (r: Result<Definition, KeyError>)
    ensures r == Inject(w, keys, rootKeyId, d)
  {
    hide DerivePublicJwk, SetPathEncryption, Collect, InjectPaths;
    if rootKeyId.None? {
      return Err(NoRootKey);
    }
    var rootKey := DerivePublicJwk(w, keys, rootKeyId.value, [SCHEME, d.protocol]);
    if rootKey.Err? {
      return Err(rootKey.error);
    }
    var tree := Root(d);
    var paths := CollectProtocolPaths(tree, [], []);
    assert paths == Collect(tree, []) && paths[0..] == paths;
    var i := 0;
    while i < |paths|
      invariant 0 <= i <= |paths|
      invariant InjectPaths(w, keys, rootKeyId.value, d.protocol, Root(d), paths)
             == InjectPaths(w, keys, rootKeyId.value, d.protocol, tree, paths[i..])
    {
      InjectNext(w, keys, rootKeyId.value, d.protocol, tree, paths, i);
      var key := DerivePublicJwk(w, keys, rootKeyId.value, [SCHEME, d.protocol] + paths[i]);
      if key.Err? {
        return Err(key.error);
      }
      var next := SetPathEncryption(tree, paths[i], key.value);
      if next.Err? {
        return Err(next.error);
      }
      tree := next.value;
      i := i + 1;
    }
    assert paths[i..] == [];
    InjectNone(w, keys, rootKeyId.value, d.protocol, tree);
    return Ok(d.(keyAgreement := Some(rootKey.value), structure := tree.rules));
  }

  lemma InjectNone(w: Kdf, keys: Keys, rootKeyId: string, protocol: string, tree: RuleSet)
    ensures InjectPaths(w, keys, rootKeyId, protocol, tree, []) == Ok(tree)
  {
  }

  // ------------------------------------------------------------------ what it computes

  function PathKey(w: Kdf, keys: Keys, rootKeyId: string, protocol: string, p: Path): Result<PublicKey, KeyError> {
    DerivePublicJwk(w, keys, rootKeyId, ["protocolPath", protocol] + p)
  }

  lemma PathKeyIff(w: Kdf, keys: Keys, rootKeyId: string, protocol: string, p: Path)
    ensures PathKey(w, keys, rootKeyId, protocol, p).Ok?
            <==> StoredKey(keys, rootKeyId).Ok? && protocol != "" && NoEmptySegment(p)
  {
    hide DerivePath, StoredKey, NoEmptySegment;
    var path := [SCHEME, protocol] + p;
    if StoredKey(keys, rootKeyId).Ok? {
      DeriveSucceedsIff(w, StoredKey(keys, rootKeyId).value, path);
      FullPathNamed(protocol, p);
    }
  }

  lemma FullPathNamed(protocol: string, p: Path)
    ensures NoEmptySegment([SCHEME, protocol] + p) <==> protocol != "" && NoEmptySegment(p)
  {
    var path := [SCHEME, protocol] + p;
    assert path[0] == SCHEME && path[1] == protocol;
    assert forall i :: 0 <= i < |p| ==> path[i + 2] == p[i];
    assert forall i :: 2 <= i < |path| ==> path[i] == p[i - 2];
  }

  /** The rule at a path after the paths so far have been given their keys. */
  predicate KeyedAt(w: Kdf, keys: Keys, rootKeyId: string, protocol: string, before: RuleSet, after: RuleSet,
                    keyed: bool, p: Path) {
    At(after, p)
    == if keyed && At(before, p).Some? && PathKey(w, keys, rootKeyId, protocol, p).Ok?
       then Some(At(before, p).value.(keyAgreement := Some(PathKey(w, keys, rootKeyId, protocol, p).value)))
       else At(before, p)
  }

  lemma {:induction false} InjectPathsExact(w: Kdf, keys: Keys, rootKeyId: string, protocol: string, tree: RuleSet,
                                            paths: seq<Path>)
    requires forall p <- paths :: p != [] && At(tree, p).Some?
    ensures InjectPaths(w, keys, rootKeyId, protocol, tree, paths).Ok?
            <==> forall p <- paths :: PathKey(w, keys, rootKeyId, protocol, p).Ok?
    ensures InjectPaths(w, keys, rootKeyId, protocol, tree, paths).Ok? ==>
              forall p: Path :: KeyedAt(w, keys, rootKeyId, protocol, tree,
                                        InjectPaths(w, keys, rootKeyId, protocol, tree, paths).value, p in paths, p)
    decreases |paths|
  {
    hide DerivePublicJwk, SetAt, At;
    if paths != [] {
      var key := PathKey(w, keys, rootKeyId, protocol, paths[0]);
      assert paths[0] in paths;
      if key.Ok? {
        SetAtExact(tree, paths[0], key.value, []);
        var next := SetAt(tree, paths[0], key.value).value;
        forall p: Path
          ensures At(next, p) == if p == paths[0] then Some(At(tree, p).value.(keyAgreement := Some(key.value)))
                  else At(tree, p)
        {
          SetAtExact(tree, paths[0], key.value, p);
        }
        InjectPathsExact(w, keys, rootKeyId, protocol, next, paths[1..]);
        if InjectPaths(w, keys, rootKeyId, protocol, next, paths[1..]).Ok? {
          var result := InjectPaths(w, keys, rootKeyId, protocol, next, paths[1..]).value;
          forall p: Path
            ensures KeyedAt(w, keys, rootKeyId, protocol, tree, result, p in paths, p)
          {
            assert KeyedAt(w, keys, rootKeyId, protocol, next, result, p in paths[1..], p);
            assert p in paths <==> p == paths[0] || p in paths[1..];
          }
        }
      }
    }
  }

  predicate AllNamed(d: Definition, p: Path) {
    NonReferenceAt(Root(d), p) ==> NoEmptySegment(p)
  }

  /** Injection succeeds exactly when the root key is usable, the protocol is named and no non-reference
      position has an empty name on its path. It then sets the key of every non-reference position to the
      key of its own full path, and touches no reference's key and no other field. */
  lemma InjectExact(w: Kdf, keys: Keys, rootKeyId: Option<string>, d: Definition)
    ensures Inject(w, keys, rootKeyId, d).Ok?
            <==> (&& rootKeyId.Some? && StoredKey(keys, rootKeyId.value).Ok? && d.protocol != ""
                  && forall p: Path :: AllNamed(d, p))
    ensures Inject(w, keys, rootKeyId, d).Ok? ==>
              var after := Inject(w, keys, rootKeyId, d).value;
              && after == d.(keyAgreement := after.keyAgreement, structure := after.structure)
              && PathKey(w, keys, rootKeyId.value, d.protocol, []).Ok?
              && after.keyAgreement == Some(PathKey(w, keys, rootKeyId.value, d.protocol, []).value)
              && (forall p: Path :: NonReferenceAt(Root(d), p) ==> PathKey(w, keys, rootKeyId.value, d.protocol, p).Ok?)
              && (forall p: Path :: KeyedAt(w, keys, rootKeyId.value, d.protocol, Root(d), Root(after),
                                            NonReferenceAt(Root(d), p), p))
  {
    hide DerivePublicJwk, At, Collect, StoredKey;
    if rootKeyId.Some? {
      var root := rootKeyId.value;
      var paths := Collect(Root(d), []);
      forall p: Path
        ensures p in paths <==> NonReferenceAt(Root(d), p)
      {
        CollectExact(Root(d), [], p);
        assert [] <= p && p[0..] == p;
      }
      TopIsReference(d);
      forall p: Path
        ensures PathKey(w, keys, root, d.protocol, p).Ok?
                <==> StoredKey(keys, root).Ok? && d.protocol != "" && NoEmptySegment(p)
      {
        PathKeyIff(w, keys, root, d.protocol, p);
      }
      assert [SCHEME, d.protocol] + [] == [SCHEME, d.protocol];
      assert PathKey(w, keys, root, d.protocol, []) == DerivePublicJwk(w, keys, root, [SCHEME, d.protocol]);
      InjectPathsExact(w, keys, root, d.protocol, Root(d), paths);
      if Inject(w, keys, rootKeyId, d).Ok? {
        assert forall p: Path :: NonReferenceAt(Root(d), p) ==> p in paths;
        InjectKeepsTop(w, keys, rootKeyId, d);
      } else if StoredKey(keys, root).Ok? && d.protocol != "" {
        var p :| p in paths && !PathKey(w, keys, root, d.protocol, p).Ok?;
        assert !AllNamed(d, p);
      }
    }
  }

  lemma TopIsReference(d: Definition)
    ensures !NonReferenceAt(Root(d), [])
  {
  }

  lemma InjectKeepsTop(w: Kdf, keys: Keys, rootKeyId: Option<string>, d: Definition)
    requires Inject(w, keys, rootKeyId, d).Ok?
    ensures var paths := Collect(Root(d), []);
            Root(Inject(w, keys, rootKeyId, d).value)
              == InjectPaths(w, keys, rootKeyId.value, d.protocol, Root(d), paths).value
  {
    var paths := Collect(Root(d), []);
    forall p <- paths
      ensures p != []
    {
      CollectExact(Root(d), [], p);
      assert p[0..] == p;
    }
    PathsKeepTop(w, keys, rootKeyId.value, d.protocol, Root(d), paths);
  }

  lemma {:induction false} PathsKeepTop(w: Kdf, keys: Keys, rootKeyId: string, protocol: string, tree: RuleSet,
                                        paths: seq<Path>)
    requires InjectPaths(w, keys, rootKeyId, protocol, tree, paths).Ok?
    ensures InjectPaths(w, keys, rootKeyId, protocol, tree, paths).value.rule == tree.rule
    decreases |paths|
  {
    hide DerivePublicJwk;
    if paths != [] {
      var key := DerivePublicJwk(w, keys, rootKeyId, [SCHEME, protocol] + paths[0]).value;
      PathsKeepTop(w, keys, rootKeyId, protocol, SetPathEncryption(tree, paths[0], key).value, paths[1..]);
    }
  }

  /** Injecting twice is injecting once. */
  lemma InjectIdempotent(w: Kdf, keys: Keys, rootKeyId: Option<string>, d: Definition)
    requires Inject(w, keys, rootKeyId, d).Ok?
    ensures var once := Inject(w, keys, rootKeyId, d).value;
            Inject(w, keys, rootKeyId, once) == Ok(once)
  {
    hide Inject, PathKey, At;
    var once := Inject(w, keys, rootKeyId, d).value;
    InjectExact(w, keys, rootKeyId, d);
    InjectExact(w, keys, rootKeyId, once);
    forall p: Path
      ensures NonReferenceAt(Root(once), p) == NonReferenceAt(Root(d), p)
    {
      assert KeyedAt(w, keys, rootKeyId.value, d.protocol, Root(d), Root(once), NonReferenceAt(Root(d), p), p);
    }
    assert forall p: Path :: AllNamed(d, p) ==> AllNamed(once, p);
    var twice := Inject(w, keys, rootKeyId, once).value;
    forall p: Path
      ensures At(Root(twice), p) == At(Root(once), p)
    {
      assert KeyedAt(w, keys, rootKeyId.value, d.protocol, Root(d), Root(once), NonReferenceAt(Root(d), p), p);
      assert KeyedAt(w, keys, rootKeyId.value, d.protocol, Root(once), Root(twice), NonReferenceAt(Root(once), p), p);
    }
    SameRulesSameTree(Root(twice), Root(once));
  }

  /** An injected definition reports encryption exactly when it has a non-reference position, or a
      reference that already carried a key. */
  lemma InjectedHasEncryption(w: Kdf, keys: Keys, rootKeyId: Option<string>, d: Definition)
    requires Inject(w, keys, rootKeyId, d).Ok?
    ensures HasEncryption(Inject(w, keys, rootKeyId, d).value)
            <==> (exists p: Path :: NonReferenceAt(Root(d), p)) || HasEncryption(d)
  {
    hide Inject, PathKey, At;
    var after := Inject(w, keys, rootKeyId, d).value;
    InjectExact(w, keys, rootKeyId, d);
    DefinitionHasEncryption(d);
    DefinitionHasEncryption(after);
    forall p: Path
      ensures EncryptedAt(Root(after), p) <==> NonReferenceAt(Root(d), p) || EncryptedAt(Root(d), p)
    {
      assert KeyedAt(w, keys, rootKeyId.value, d.protocol, Root(d), Root(after), NonReferenceAt(Root(d), p), p);
    }
  }

  lemma DefinitionHasEncryption(d: Definition)
    ensures HasEncryption(d) <==> exists p: Path :: EncryptedAt(Root(d), p)
  {
    HasEncryptionIff(Root(d));
  }
}

/** Decryption keys for delegates: read-like scopes get the private key of the path they name. */
module Delegates {
  import opened Wrappers
  import opened KeyDerivation
  import opened Protocols
  import opened Injection
  import BTree
  import Text

  datatype RecordsMethod = Read | Write | Delete

  datatype Selector = ContextId(id: string) | ProtocolPath(text: string)

  datatype Scope =
    | ProtocolsScope
    | MessagesScope(selector: Option<Selector>)
    | RecordsScope(access: RecordsMethod, selector: Option<Selector>)

  datatype Request = Request(definition: Definition, scopes: seq<Scope>)

  datatype DecryptionScope = WholeProtocol | ExactPath(text: string)

  datatype DelegateKey = DelegateKey(protocol: string, scope: DecryptionScope, rootKeyId: string, path: Path,
                                     key: PrivateKey)

  datatype Delegation = Delegation(keys: seq<DelegateKey>, multiParty: set<string>)

  predicate IsReadLike(s: Scope) {
    s.MessagesScope? || (s.RecordsScope? && s.access == Read)
  }

  predicate HasContext(s: Scope) {
    !s.ProtocolsScope? && s.selector.Some? && s.selector.value.ContextId?
  }

  function PathText(s: Scope): Option<string> {
    if !s.ProtocolsScope? && s.selector.Some? && s.selector.value.ProtocolPath? then Some(s.selector.value.text)
    else None
  }

  function ScopePath(s: Scope): Path {
    if PathText(s).Some? then PathOf(PathText(s).value) else []
  }

  function KeyFor(w: Kdf, keys: Keys, rootKeyId: string, protocol: string, s: Scope): Result<DelegateKey, KeyError> {
    var path := [SCHEME, protocol] + ScopePath(s);
    var key :- DerivePrivateJwk(w, keys, rootKeyId, path);
    var scope := if PathText(s).Some? then ExactPath(PathText(s).value) else WholeProtocol;
    Ok(DelegateKey(protocol, scope, rootKeyId, path, key))
  }

  function AddScope(w: Kdf, keys: Keys, rootKeyId: string, d: Definition, so: Delegation,
                    s: Scope): Result<Delegation, KeyError> {
    if !IsReadLike(s) || HasContext(s) then Ok(so)
    else if AllowsMultiParty(d) then
      Ok(if PathText(s).None? then so.(multiParty := so.multiParty + {d.protocol}) else so)
    else
      var key :- KeyFor(w, keys, rootKeyId, d.protocol, s);
      Ok(so.(keys := so.keys + [key]))
  }

  function AddScopes(w: Kdf, keys: Keys, rootKeyId: string, d: Definition, so: Delegation,
                     scopes: seq<Scope>): Result<Delegation, KeyError>
    decreases |scopes|
  {
    if scopes == [] then Ok(so)
    else
      var next :- AddScope(w, keys, rootKeyId, d, so, scopes[0]);
      AddScopes(w, keys, rootKeyId, d, next, scopes[1..])
  }

  function AddRequest(w: Kdf, keys: Keys, rootKeyId: string, so: Delegation, r: Request): Result<Delegation, KeyError> {
    if RequiresEncryption(r.definition) then AddScopes(w, keys, rootKeyId, r.definition, so, r.scopes) else Ok(so)
  }

  function AddRequests(w: Kdf, keys: Keys, rootKeyId: string, so: Delegation,
                       requests: seq<Request>): Result<Delegation, KeyError>
    decreases |requests|
  {
    if requests == [] then Ok(so)
    else
      var next :- AddRequest(w, keys, rootKeyId, so, requests[0]);
      AddRequests(w, keys, rootKeyId, next, requests[1..])
  }

  /** What a delegate is given: its keys, and the multi-party protocols in name order. */
  datatype DelegateKeys = DelegateKeys(keys: seq<DelegateKey>, multiParty: seq<string>)

  function DelegateKeysFor(w: Kdf, keys: Keys, rootKeyId: Option<string>,
                           requests: seq<Request>): Result<DelegateKeys, KeyError> {
    if rootKeyId.None? then Err(NoRootKey)
    else
      var all :- AddRequests(w, keys, rootKeyId.value, Delegation([], {}), requests);
      Ok(DelegateKeys(all.keys, BTree.InOrder(all.multiParty)))
  }

  method DeriveDelegateKeys(w: Kdf, keys: Keys, rootKeyId: Option<string>,
                            requests: seq<Request>) returns (r: Result<DelegateKeys, KeyError>)
    ensures r == DelegateKeysFor(w, keys, rootKeyId, requests)
  {
    hide RequiresEncryption, AllowsMultiParty, KeyFor;
    if rootKeyId.None? {
      return Err(NoRootKey);
    }
    var root := rootKeyId.value;
    var result := Delegation([], {});
    var i := 0;
    while i < |requests|
      invariant 0 <= i <= |requests|
      invariant AddRequests(w, keys, root, Delegation([], {}), requests)
             == AddRequests(w, keys, root, result, requests[i..])
    {
      var next := DeriveForRequest(w, keys, root, result, requests[i]);
      if next.Err? {
        return Err(next.error);
      }
      result := next.value;
      assert requests[i..][1..] == requests[i + 1..];
      i := i + 1;
    }
    return Ok(DelegateKeys(result.keys, BTree.InOrder(result.multiParty)));
  }

  method DeriveForRequest(w: Kdf, keys: Keys, root: string, so: Delegation,
                          request: Request) returns (r: Result<Delegation, KeyError>)
    ensures r == AddRequest(w, keys, root, so, request)
  {
    hide RequiresEncryption, AllowsMultiParty;
    var d := request.definition;
    if !RequiresEncryption(d) {
      return Ok(so);
    }
    var multiParty := AllowsMultiParty(d);
    var result := so;
    var i := 0;
    while i < |request.scopes|
      invariant 0 <= i <= |request.scopes|
      invariant AddScopes(w, keys, root, d, so, request.scopes)
                == AddScopes(w, keys, root, d, result, request.scopes[i..])
    {
      var scope := request.scopes[i];
      assert request.scopes[i..][1..] == request.scopes[i + 1..];
      i := i + 1;
      if !IsReadLike(scope) {
        continue;
      }
      if HasContext(scope) {
        continue;
      }
      if multiParty {
        if PathText(scope).None? {
          result := result.(multiParty := result.multiParty + {d.protocol});
        }
        continue;
      }
      var path := [SCHEME, d.protocol];
      var decryption := WholeProtocol;
      if PathText(scope).Some? {
        path := path + PathOf(PathText(scope).value);
        decryption := ExactPath(PathText(scope).value);
      }
      assert path == [SCHEME, d.protocol] + ScopePath(scope);
      var key := DerivePrivateJwk(w, keys, root, path);
      if key.Err? {
        return Err(key.error);
      }
      result := result.(keys := result.keys + [DelegateKey(d.protocol, decryption, root, path, key.value)]);
    }
    return Ok(result);
  }

  // ------------------------------------------------------------------ which scopes get a key

  /** A scope that gets a private key: it reads, names no context, and its protocol is encrypted and has
      no reader beyond the owner. */
  predicate Eligible(d: Definition, s: Scope) {
    RequiresEncryption(d) && IsReadLike(s) && !HasContext(s) && !AllowsMultiParty(d)
  }

  /** A protocol that is reported instead of keyed. */
  predicate Reported(d: Definition, s: Scope) {
    RequiresEncryption(d) && IsReadLike(s) && !HasContext(s) && AllowsMultiParty(d) && PathText(s).None?
  }

  function EligibleScopes(d: Definition, scopes: seq<Scope>): seq<(Definition, Scope)> {
    if scopes == [] then []
    else (if Eligible(d, scopes[0]) then [(d, scopes[0])] else []) + EligibleScopes(d, scopes[1..])
  }

  function EligibleIn(requests: seq<Request>): seq<(Definition, Scope)> {
    if requests == [] then []
    else EligibleScopes(requests[0].definition, requests[0].scopes) + EligibleIn(requests[1..])
  }

  predicate IsKeyFor(w: Kdf, keys: Keys, rootKeyId: string, k: DelegateKey, e: (Definition, Scope)) {
    KeyFor(w, keys, rootKeyId, e.0.protocol, e.1) == Ok(k)
  }

  predicate KeysMatch(w: Kdf, keys: Keys, rootKeyId: string, ks: seq<DelegateKey>, es: seq<(Definition, Scope)>) {
    |ks| == |es| && forall i :: 0 <= i < |ks| ==> IsKeyFor(w, keys, rootKeyId, ks[i], es[i])
  }

  lemma MatchAppend(w: Kdf, keys: Keys, rootKeyId: string, ks: seq<DelegateKey>, es: seq<(Definition, Scope)>,
                    ls: seq<DelegateKey>, fs: seq<(Definition, Scope)>)
    requires KeysMatch(w, keys, rootKeyId, ks, es) && KeysMatch(w, keys, rootKeyId, ls, fs)
    ensures KeysMatch(w, keys, rootKeyId, ks + ls, es + fs)
  {
  }

  lemma {:induction false} ScopesExact(w: Kdf, keys: Keys, rootKeyId: string, d: Definition, so: Delegation,
                                       scopes: seq<Scope>) returns (added: seq<DelegateKey>)
    requires RequiresEncryption(d) && AddScopes(w, keys, rootKeyId, d, so, scopes).Ok?
    ensures AddScopes(w, keys, rootKeyId, d, so, scopes).value.keys == so.keys + added
    ensures KeysMatch(w, keys, rootKeyId, added, EligibleScopes(d, scopes))
    ensures forall p :: p in AddScopes(w, keys, rootKeyId, d, so, scopes).value.multiParty
                        <==> p in so.multiParty || (p == d.protocol && AnyReported(d, scopes))
    decreases |scopes|
  {
    hide RequiresEncryption, AllowsMultiParty, KeyFor, AnyReported;
    AnyReportedCons(d, scopes);
    if scopes == [] {
      added := [];
    } else {
      var next := AddScope(w, keys, rootKeyId, d, so, scopes[0]).value;
      var rest := ScopesExact(w, keys, rootKeyId, d, next, scopes[1..]);
      var first := if Eligible(d, scopes[0]) then [KeyFor(w, keys, rootKeyId, d.protocol, scopes[0]).value] else [];
      var eligible := if Eligible(d, scopes[0]) then [(d, scopes[0])] else [];
      assert KeysMatch(w, keys, rootKeyId, first, eligible);
      MatchAppend(w, keys, rootKeyId, first, eligible, rest, EligibleScopes(d, scopes[1..]));
      added := first + rest;
      assert next.keys == so.keys + first;
      assert so.keys + first + rest == so.keys + added;
    }
  }

  predicate AnyReported(d: Definition, scopes: seq<Scope>) {
    exists s <- scopes :: Reported(d, s)
  }

  lemma AnyReportedCons(d: Definition, scopes: seq<Scope>)
    ensures AnyReported(d, scopes) <==> scopes != [] && (Reported(d, scopes[0]) || AnyReported(d, scopes[1..]))
  {
  }

  predicate ReportedIn(requests: seq<Request>, protocol: string) {
    exists r <- requests :: protocol == r.definition.protocol && AnyReported(r.definition, r.scopes)
  }

  lemma ReportedInCons(requests: seq<Request>, protocol: string)
    ensures ReportedIn(requests, protocol)
            <==> requests != [] && ((protocol == requests[0].definition.protocol
                                     && AnyReported(requests[0].definition, requests[0].scopes))
                                    || ReportedIn(requests[1..], protocol))
  {
  }

  lemma NoneReported(d: Definition, scopes: seq<Scope>)
    requires !RequiresEncryption(d)
    ensures !AnyReported(d, scopes)
  {
  }

  lemma NoneEligible(d: Definition, scopes: seq<Scope>)
    requires !RequiresEncryption(d)
    ensures EligibleScopes(d, scopes) == []
    decreases |scopes|
  {
  }

  lemma {:induction false} RequestsAdd(w: Kdf, keys: Keys, rootKeyId: string, so: Delegation,
                                         requests: seq<Request>) returns (added: seq<DelegateKey>)
    requires AddRequests(w, keys, rootKeyId, so, requests).Ok?
    ensures AddRequests(w, keys, rootKeyId, so, requests).value.keys == so.keys + added
    ensures KeysMatch(w, keys, rootKeyId, added, EligibleIn(requests))
    ensures forall p :: p in AddRequests(w, keys, rootKeyId, so, requests).value.multiParty
                        <==> p in so.multiParty || ReportedIn(requests, p)
    decreases |requests|
  {
    hide RequiresEncryption, AllowsMultiParty, KeyFor, AddScopes, EligibleScopes, AnyReported, ReportedIn;
    forall p
      ensures ReportedIn(requests, p)
              <==> requests != [] && ((p == requests[0].definition.protocol
                                       && AnyReported(requests[0].definition, requests[0].scopes))
                                      || ReportedIn(requests[1..], p))
    {
      ReportedInCons(requests, p);
    }
    if requests == [] {
      added := [];
    } else {
      var r := requests[0];
      var next := AddRequest(w, keys, rootKeyId, so, r).value;
      var first: seq<DelegateKey> := [];
      if RequiresEncryption(r.definition) {
        first := ScopesExact(w, keys, rootKeyId, r.definition, so, r.scopes);
      } else {
        NoneEligible(r.definition, r.scopes);
        NoneReported(r.definition, r.scopes);
      }
      var rest := RequestsAdd(w, keys, rootKeyId, next, requests[1..]);
      MatchAppend(w, keys, rootKeyId, first, EligibleScopes(r.definition, r.scopes), rest, EligibleIn(requests[1..]));
      added := first + rest;
      assert so.keys + first + rest == so.keys + added;
    }
  }

  /** A delegate gets exactly one key for each eligible scope, in order, and the multi-party protocols
      asked for as a whole are reported instead, each once and in name order. */
  lemma RequestsExact(w: Kdf, keys: Keys, rootKeyId: Option<string>, requests: seq<Request>)
    requires DelegateKeysFor(w, keys, rootKeyId, requests).Ok?
    ensures var r := DelegateKeysFor(w, keys, rootKeyId, requests).value;
            && KeysMatch(w, keys, rootKeyId.value, r.keys, EligibleIn(requests))
            && (forall p :: p in r.multiParty <==> ReportedIn(requests, p))
            && (forall i, j :: 0 <= i < j < |r.multiParty| ==> BTree.Less(r.multiParty[i], r.multiParty[j]))
  {
    hide AddRequests, EligibleIn, ReportedIn, KeysMatch, BTree.InOrder, BTree.Less;
    var added := RequestsAdd(w, keys, rootKeyId.value, Delegation([], {}), requests);
    assert [] + added == added;
  }

  lemma KeyForIff(w: Kdf, keys: Keys, rootKeyId: string, protocol: string, s: Scope)
    ensures KeyFor(w, keys, rootKeyId, protocol, s).Ok? <==> StoredKey(keys, rootKeyId).Ok? && protocol != ""
  {
    hide DerivePath, StoredKey, ScopePath;
    PathsNamed(s);
    PathKeyIff(w, keys, rootKeyId, protocol, ScopePath(s));
  }

  predicate AllKeyed(keys: Keys, rootKeyId: string, es: seq<(Definition, Scope)>) {
    es != [] ==> StoredKey(keys, rootKeyId).Ok? && forall i :: 0 <= i < |es| ==> es[i].0.protocol != ""
  }

  lemma AllKeyedAppend(keys: Keys, rootKeyId: string, es: seq<(Definition, Scope)>, fs: seq<(Definition, Scope)>)
    ensures AllKeyed(keys, rootKeyId, es + fs) <==> AllKeyed(keys, rootKeyId, es) && AllKeyed(keys, rootKeyId, fs)
  {
    hide StoredKey;
    var all := es + fs;
    assert forall i :: 0 <= i < |es| ==> all[i] == es[i];
    assert forall i :: 0 <= i < |fs| ==> all[|es| + i] == fs[i];
    assert forall i :: |es| <= i < |all| ==> all[i] == fs[i - |es|];
  }

  /** The whole derivation succeeds exactly when there is a root key and every eligible scope can get its
      key: the root key is usable, and the protocol has a name. */
  lemma DelegationSucceedsIff(w: Kdf, keys: Keys, rootKeyId: Option<string>, requests: seq<Request>)
    ensures DelegateKeysFor(w, keys, rootKeyId, requests).Ok?
            <==> rootKeyId.Some? && AllKeyed(keys, rootKeyId.value, EligibleIn(requests))
  {
    hide AddRequests, EligibleIn, AllKeyed, BTree.InOrder;
    if rootKeyId.Some? {
      RequestsSucceedIff(w, keys, rootKeyId.value, Delegation([], {}), requests);
    }
  }

  lemma {:induction false} RequestsSucceedIff(w: Kdf, keys: Keys, rootKeyId: string, so: Delegation,
                                                 requests: seq<Request>)
    ensures AddRequests(w, keys, rootKeyId, so, requests).Ok?
            <==> AllKeyed(keys, rootKeyId, EligibleIn(requests))
    decreases |requests|
  {
    hide RequiresEncryption, AllowsMultiParty, AddScopes, EligibleScopes, StoredKey, AllKeyed;
    NoneKeyed(keys, rootKeyId);
    if requests != [] {
      var r := requests[0];
      AllKeyedAppend(keys, rootKeyId, EligibleScopes(r.definition, r.scopes), EligibleIn(requests[1..]));
      ScopesSucceedIff(w, keys, rootKeyId, r.definition, so, r.scopes);
      if !RequiresEncryption(r.definition) {
        NoneEligible(r.definition, r.scopes);
      }
      var next := AddRequest(w, keys, rootKeyId, so, r);
      if next.Ok? {
        RequestsSucceedIff(w, keys, rootKeyId, next.value, requests[1..]);
      }
    }
  }

  lemma {:induction false} ScopesSucceedIff(w: Kdf, keys: Keys, rootKeyId: string, d: Definition, so: Delegation,
                                            scopes: seq<Scope>)
    ensures RequiresEncryption(d) ==>
              (AddScopes(w, keys, rootKeyId, d, so, scopes).Ok?
               <==> AllKeyed(keys, rootKeyId, EligibleScopes(d, scopes)))
    decreases |scopes|
  {
    hide RequiresEncryption, AllowsMultiParty, KeyFor, StoredKey;
    if scopes != [] && RequiresEncryption(d) {
      KeyForIff(w, keys, rootKeyId, d.protocol, scopes[0]);
      var first := if Eligible(d, scopes[0]) then [(d, scopes[0])] else [];
      AllKeyedAppend(keys, rootKeyId, first, EligibleScopes(d, scopes[1..]));
      var next := AddScope(w, keys, rootKeyId, d, so, scopes[0]);
      if next.Ok? {
        ScopesSucceedIff(w, keys, rootKeyId, d, next.value, scopes[1..]);
      } else {
        assert first[0].0 == d;
      }
    }
  }

  lemma NoneKeyed(keys: Keys, rootKeyId: string)
    ensures AllKeyed(keys, rootKeyId, [])
  {
  }

  // ------------------------------------------------------------------ scope by scope

  lemma {:induction false} AddScopesAppend(w: Kdf, keys: Keys, rootKeyId: string, d: Definition, so: Delegation,
                                           a: seq<Scope>, b: seq<Scope>)
    ensures var first := AddScopes(w, keys, rootKeyId, d, so, a);
            AddScopes(w, keys, rootKeyId, d, so, a + b)
            == if first.Err? then first else AddScopes(w, keys, rootKeyId, d, first.value, b)
    decreases |a|
  {
    hide AddScope;
    if a == [] {
      assert a + b == b;
    } else {
      assert (a + b)[0] == a[0] && (a + b)[1..] == a[1..] + b;
      var next := AddScope(w, keys, rootKeyId, d, so, a[0]);
      if next.Ok? {
        AddScopesAppend(w, keys, rootKeyId, d, next.value, a[1..], b);
      }
    }
  }

  lemma {:induction false} AddRequestsAppend(w: Kdf, keys: Keys, rootKeyId: string, so: Delegation, a: seq<Request>,
                                             b: seq<Request>)
    ensures var first := AddRequests(w, keys, rootKeyId, so, a);
            AddRequests(w, keys, rootKeyId, so, a + b)
            == if first.Err? then first else AddRequests(w, keys, rootKeyId, first.value, b)
    decreases |a|
  {
    hide AddRequest;
    if a == [] {
      assert a + b == b;
    } else {
      assert (a + b)[0] == a[0] && (a + b)[1..] == a[1..] + b;
      var next := AddRequest(w, keys, rootKeyId, so, a[0]);
      if next.Ok? {
        AddRequestsAppend(w, keys, rootKeyId, next.value, a[1..], b);
      }
    }
  }

  lemma OneRequest(w: Kdf, keys: Keys, rootKeyId: string, so: Delegation, r: Request)
    ensures AddRequests(w, keys, rootKeyId, so, [r]) == AddRequest(w, keys, rootKeyId, so, r)
  {
    hide AddRequest;
    assert [r][1..] == [];
  }

  lemma OneScope(w: Kdf, keys: Keys, rootKeyId: string, d: Definition, so: Delegation, s: Scope)
    ensures AddScopes(w, keys, rootKeyId, d, so, [s]) == AddScope(w, keys, rootKeyId, d, so, s)
  {
    hide AddScope;
    assert [s][1..] == [];
  }

  /** One more scope at the end of the last request is one more step. */
  lemma LastScope(w: Kdf, keys: Keys, rootKeyId: string, requests: seq<Request>, d: Definition, scopes: seq<Scope>,
                  s: Scope)
    ensures var none := Delegation([], {});
            var before := AddRequests(w, keys, rootKeyId, none, requests + [Request(d, scopes)]);
            var after := AddRequests(w, keys, rootKeyId, none, requests + [Request(d, scopes + [s])]);
            after == if before.Err? || !RequiresEncryption(d) then before
                     else AddScope(w, keys, rootKeyId, d, before.value, s)
  {
    hide AddScope, AddScopes, AddRequests, RequiresEncryption;
    var none := Delegation([], {});
    AddRequestsAppend(w, keys, rootKeyId, none, requests, [Request(d, scopes)]);
    AddRequestsAppend(w, keys, rootKeyId, none, requests, [Request(d, scopes + [s])]);
    var so := AddRequests(w, keys, rootKeyId, none, requests);
    if so.Ok? {
      OneRequest(w, keys, rootKeyId, so.value, Request(d, scopes));
      OneRequest(w, keys, rootKeyId, so.value, Request(d, scopes + [s]));
      AddScopesAppend(w, keys, rootKeyId, d, so.value, scopes, [s]);
      var before := AddScopes(w, keys, rootKeyId, d, so.value, scopes);
      if before.Ok? {
        OneScope(w, keys, rootKeyId, d, before.value, s);
      }
    }
  }

  /** Scopes of every kind but reading ones. */
  predicate ReadsNothing(s: Scope) {
    match s
    case ProtocolsScope => true
    case MessagesScope(_) => false
    case RecordsScope(access, _) => access == Write || access == Delete
  }

  /** A scope that reads nothing, or that names a context, is as if it were not there. */
  lemma UnreadableScopeIgnored(w: Kdf, keys: Keys, rootKeyId: Option<string>, requests: seq<Request>, d: Definition,
                               scopes: seq<Scope>, s: Scope)
    requires ReadsNothing(s) || (exists id :: s.selector == Some(ContextId(id)))
    ensures DelegateKeysFor(w, keys, rootKeyId, requests + [Request(d, scopes + [s])])
            == DelegateKeysFor(w, keys, rootKeyId, requests + [Request(d, scopes)])
  {
    hide AddRequests, RequiresEncryption, AllowsMultiParty;
    if rootKeyId.Some? {
      LastScope(w, keys, rootKeyId.value, requests, d, scopes, s);
    }
  }

  function Readers(scopes: seq<Scope>): seq<Scope> {
    if scopes == [] then []
    else (if ReadsNothing(scopes[0]) then [] else [scopes[0]]) + Readers(scopes[1..])
  }

  function OnlyReaders(requests: seq<Request>): seq<Request> {
    seq(|requests|, i requires 0 <= i < |requests| => requests[i].(scopes := Readers(requests[i].scopes)))
  }

  lemma {:induction false} ReadersSame(w: Kdf, keys: Keys, rootKeyId: string, d: Definition, so: Delegation,
                                       scopes: seq<Scope>)
    ensures AddScopes(w, keys, rootKeyId, d, so, Readers(scopes)) == AddScopes(w, keys, rootKeyId, d, so, scopes)
    decreases |scopes|
  {
    hide KeyFor, AllowsMultiParty;
    if scopes != [] {
      var next := AddScope(w, keys, rootKeyId, d, so, scopes[0]);
      if next.Ok? {
        ReadersSame(w, keys, rootKeyId, d, next.value, scopes[1..]);
      }
      if ReadsNothing(scopes[0]) {
        assert Readers(scopes) == Readers(scopes[1..]) && next == Ok(so);
      } else {
        assert Readers(scopes)[0] == scopes[0] && Readers(scopes)[1..] == Readers(scopes[1..]);
      }
    }
  }

  lemma {:induction false} OnlyReadersSame(w: Kdf, keys: Keys, rootKeyId: string, so: Delegation,
                                           requests: seq<Request>)
    ensures AddRequests(w, keys, rootKeyId, so, OnlyReaders(requests)) == AddRequests(w, keys, rootKeyId, so, requests)
    decreases |requests|
  {
    hide AddScopes, RequiresEncryption, Readers;
    if requests != [] {
      var r := requests[0];
      ReadersSame(w, keys, rootKeyId, r.definition, so, r.scopes);
      assert OnlyReaders(requests)[1..] == OnlyReaders(requests[1..]);
      var next := AddRequest(w, keys, rootKeyId, so, r);
      if next.Ok? {
        OnlyReadersSame(w, keys, rootKeyId, next.value, requests[1..]);
      }
    }
  }

  lemma {:induction false} NoReaders(w: Kdf, keys: Keys, rootKeyId: string, so: Delegation, requests: seq<Request>)
    requires forall r <- requests :: r.scopes == []
    ensures AddRequests(w, keys, rootKeyId, so, requests) == Ok(so)
    decreases |requests|
  {
    hide RequiresEncryption;
    if requests != [] {
      assert requests[0] in requests;
      NoReaders(w, keys, rootKeyId, so, requests[1..]);
    }
  }

  lemma {:induction false} NoneRead(scopes: seq<Scope>)
    requires forall s <- scopes :: ReadsNothing(s)
    ensures Readers(scopes) == []
  {
    if scopes != [] {
      NoneRead(scopes[1..]);
    }
  }

  /** Scopes that configure protocols, write or delete make no difference wherever they stand, and requests with
      nothing else get neither a key nor a report. */
  lemma WritersGetNothing(w: Kdf, keys: Keys, rootKeyId: Option<string>, requests: seq<Request>)
    ensures DelegateKeysFor(w, keys, rootKeyId, OnlyReaders(requests)) == DelegateKeysFor(w, keys, rootKeyId, requests)
    ensures rootKeyId.Some? && (forall r <- requests, s <- r.scopes :: ReadsNothing(s)) ==>
              DelegateKeysFor(w, keys, rootKeyId, requests) == Ok(DelegateKeys([], []))
  {
    hide AddRequests, Readers, ReadsNothing;
    if rootKeyId.Some? {
      OnlyReadersSame(w, keys, rootKeyId.value, Delegation([], {}), requests);
      if forall r <- requests, s <- r.scopes :: ReadsNothing(s) {
        forall r <- OnlyReaders(requests)
          ensures r.scopes == []
        {
          var i :| 0 <= i < |requests| && r == OnlyReaders(requests)[i];
          NoneRead(requests[i].scopes);
        }
        NoReaders(w, keys, rootKeyId.value, Delegation([], {}), OnlyReaders(requests));
      }
    }
  }

  /** The names that a selector's path stands for. */
  function SelectedPath(selector: Option<Selector>): Path
    requires selector.None? || selector.value.ProtocolPath?
  {
    if selector.None? then [] else PathOf(selector.value.text)
  }

  function SelectedScope(selector: Option<Selector>): DecryptionScope
    requires selector.None? || selector.value.ProtocolPath?
  {
    if selector.None? then WholeProtocol else ExactPath(selector.value.text)
  }

  /** A scope that reads messages or records, of an encrypted protocol with a single party, gets exactly one key:
      the private key of the path it names, or of the protocol. */
  lemma ReaderGetsOneKey(w: Kdf, keys: Keys, rootKeyId: string, requests: seq<Request>, d: Definition,
                         scopes: seq<Scope>, selector: Option<Selector>, s: Scope)
    requires RequiresEncryption(d) && !AllowsMultiParty(d) && (selector.None? || selector.value.ProtocolPath?)
    requires s == MessagesScope(selector) || s == RecordsScope(Read, selector)
    ensures var before := DelegateKeysFor(w, keys, Some(rootKeyId), requests + [Request(d, scopes)]);
            var after := DelegateKeysFor(w, keys, Some(rootKeyId), requests + [Request(d, scopes + [s])]);
            var path := ["protocolPath", d.protocol] + SelectedPath(selector);
            var key := DerivePrivateJwk(w, keys, rootKeyId, path);
            if before.Err? then after == before
            else if key.Err? then after == Err(key.error)
            else
              var added := DelegateKey(d.protocol, SelectedScope(selector), rootKeyId, path, key.value);
              after == Ok(before.value.(keys := before.value.keys + [added]))
  {
    hide AddRequests, RequiresEncryption, AllowsMultiParty, DerivePrivateJwk, PathOf, BTree.InOrder;
    LastScope(w, keys, rootKeyId, requests, d, scopes, s);
  }

  /** The same scope of a protocol with several parties gets no key; the protocol is reported if it was asked for
      as a whole. */
  lemma SharedProtocolReported(w: Kdf, keys: Keys, rootKeyId: string, requests: seq<Request>, d: Definition,
                               scopes: seq<Scope>, selector: Option<Selector>, s: Scope)
    requires RequiresEncryption(d) && AllowsMultiParty(d) && (selector.None? || selector.value.ProtocolPath?)
    requires s == MessagesScope(selector) || s == RecordsScope(Read, selector)
    ensures var before := DelegateKeysFor(w, keys, Some(rootKeyId), requests + [Request(d, scopes)]);
            var after := DelegateKeysFor(w, keys, Some(rootKeyId), requests + [Request(d, scopes + [s])]);
            if before.Err? then after == before
            else
              && after.Ok? && after.value.keys == before.value.keys
              && forall p :: p in after.value.multiParty
                             <==> p in before.value.multiParty || (selector.None? && p == d.protocol)
  {
    hide AddRequests, RequiresEncryption, AllowsMultiParty, DerivePrivateJwk, PathOf, BTree.InOrder;
    LastScope(w, keys, rootKeyId, requests, d, scopes, s);
  }

  /** A request for a protocol without encryption changes nothing. */
  lemma PlainProtocolIgnored(w: Kdf, keys: Keys, rootKeyId: Option<string>, requests: seq<Request>, d: Definition,
                             scopes: seq<Scope>)
    requires !RequiresEncryption(d)
    ensures DelegateKeysFor(w, keys, rootKeyId, requests + [Request(d, scopes)])
            == DelegateKeysFor(w, keys, rootKeyId, requests)
  {
    hide AddRequests, RequiresEncryption, AddScopes;
    if rootKeyId.Some? {
      AddRequestsAppend(w, keys, rootKeyId.value, Delegation([], {}), requests, [Request(d, scopes)]);
      var so := AddRequests(w, keys, rootKeyId.value, Delegation([], {}), requests);
      if so.Ok? {
        OneRequest(w, keys, rootKeyId.value, so.value, Request(d, scopes));
      }
    }
  }

  // ------------------------------------------------------------------ the keys fit the injected ones

  /** The private key for a scope has as its public half exactly the key injected where the scope points:
      at the protocol as a whole, or at any non-reference position, for every spelling of its path. */
  lemma DelegateKeyFits(w: Kdf, keys: Keys, rootKeyId: string, d: Definition, s: Scope)
    requires Inject(w, keys, Some(rootKeyId), d).Ok?
    ensures var after := Inject(w, keys, Some(rootKeyId), d).value;
            var path := ScopePath(s);
            && KeyFor(w, keys, rootKeyId, d.protocol, s).Ok?
            && (path == [] ==>
                  after.keyAgreement == Some(w.publicOf(KeyFor(w, keys, rootKeyId, d.protocol, s).value.key)))
            && (NonReferenceAt(Root(d), path) ==>
                  At(Root(after), path).Some?
                  && At(Root(after), path).value.keyAgreement
                     == Some(w.publicOf(KeyFor(w, keys, rootKeyId, d.protocol, s).value.key)))
  {
    hide Inject, DerivePath, StoredKey, At;
    InjectExact(w, keys, Some(rootKeyId), d);
    var after := Inject(w, keys, Some(rootKeyId), d).value;
    var path := ScopePath(s);
    PathsNamed(s);
    PathKeyIff(w, keys, rootKeyId, d.protocol, path);
    assert KeyedAt(w, keys, rootKeyId, d.protocol, Root(d), Root(after), NonReferenceAt(Root(d), path), path);
  }

  lemma PathsNamed(s: Scope)
    ensures NoEmptySegment(ScopePath(s))
  {
    if PathText(s).Some? {
      var path := ScopePath(s);
      NonEmptyOf(Text.Split(PathText(s).value, '/'));
      assert forall i :: 0 <= i < |path| ==> path[i] in path;
    }
  }

  /** Extending the protocol-level key along a path gives the key derived for that path from the root,
      so a delegate for the whole protocol can open every position in it. */
  lemma ProtocolKeyReachesAll(w: Kdf, keys: Keys, rootKeyId: string, d: Definition, p: Path)
    requires Inject(w, keys, Some(rootKeyId), d).Ok? && NonReferenceAt(Root(d), p)
    ensures var after := Inject(w, keys, Some(rootKeyId), d).value;
            var whole := KeyFor(w, keys, rootKeyId, d.protocol, MessagesScope(None));
            && whole.Ok? && DerivePath(w, whole.value.key, p).Ok? && |DerivePath(w, whole.value.key, p).value| == 32
            && At(Root(after), p).Some?
            && At(Root(after), p).value.keyAgreement == Some(w.publicOf(DerivePath(w, whole.value.key, p).value))
  {
    hide Inject, DerivePath, StoredKey, At;
    InjectExact(w, keys, Some(rootKeyId), d);
    var after := Inject(w, keys, Some(rootKeyId), d).value;
    DelegateKeyFits(w, keys, rootKeyId, d, MessagesScope(None));
    assert KeyedAt(w, keys, rootKeyId, d.protocol, Root(d), Root(after), NonReferenceAt(Root(d), p), p);
    var top := [SCHEME, d.protocol];
    assert top + [] == top;
    ExtendDerivedKey(w, keys, rootKeyId, top, p);
  }
}

/** Exactly which documents the encoder accepts. */
module DhtAccept {
  import opened Wrappers
  import opened Text
  import opened Bytes
  import opened DidDocument
  import opened DhtRecords
  import opened DhtEncode
  import opened DhtNormal
  import opened DhtRoundTrip
  import opened DhtRelationships
  import opened DhtTheorems
  import opened DhtDocuments
  import opened DhtRepublish
  import opened DhtWire
  import Base64Url
  import BTree

  // ------------------------------------------------------------------ methods

  /** Text without any of the characters that structure a record. */
  predicate Clean(s: string) {
    forall i :: 0 <= i < |s| ==> s[i] != '=' && s[i] != ';' && s[i] != ','
  }

  lemma CleanIff(s: string)
    ensures Scalar(s) <==> Clean(s)
  {
  }

  /** The id is the DID with a non-empty clean fragment. */
  predicate Fragmented(did: string, id: string) {
    did + "#" <= id && |id| > |did| + 1 && Clean(id[|did| + 1..])
  }

  predicate Bytes32(b: Option<bytes>) {
    b.Some? && |b.value| == 32
  }

  /** A key of one of the registered types, with coordinates of 32 bytes. */
  predicate KeyWritable(m: KeyMaterial) {
    || ((CurveIs(m, "Ed25519") || CurveIs(m, "X25519")) && Bytes32(m.x))
    || ((CurveIs(m, "secp256k1") || CurveIs(m, "P-256") || CurveIs(m, "secp256r1")) && Bytes32(m.x) && Bytes32(m.y))
  }

  /** What a verification method must be. */
  predicate MethodWritable(env: Env, did: string, m: VerificationMethod) {
    && Fragmented(did, m.id) && Clean(m.controller)
    && m.kind == "JsonWebKey" && m.properties.Keys == {"publicKeyJwk"} && m.properties["publicKeyJwk"].KeyProperty?
    && var jwk := m.properties["publicKeyJwk"].jwk;
    && KeyWritable(jwk.material) && env.thumbprint(jwk.material, jwk.rest).Some?
    && (jwk.alg.None? || Clean(jwk.alg.value))
  }

  lemma KeyWritableIff(m: KeyMaterial)
    ensures ToWireKey(m).Ok? <==> KeyWritable(m)
  {
  }

  lemma UsualIsClean(keyType: nat)
    ensures Clean(DefaultAlgorithm(keyType))
  {
  }

  lemma MethodWritableIff(env: Env, did: string, m: VerificationMethod, seen: set<string>)
    ensures EncodeMethod(env, did, m, seen).Ok?
            <==> MethodWritable(env, did, m) && m.id[|did| + 1..] !in seen
    ensures EncodeMethod(env, did, m, seen).Ok? ==>
              EncodeMethod(env, did, m, seen).value.fragment == m.id[|did| + 1..]
  {
    hide ToWireKey, KeyWritable, Scalar, Clean, DefaultAlgorithm, Base64Url.Encode;
    if did + "#" <= m.id {
      assert m.id[|did + "#"|..] == m.id[|did| + 1..];
      CleanIff(m.id[|did| + 1..]);
    }
    CleanIff(m.controller);
    if m.properties.Keys == {"publicKeyJwk"} && m.properties["publicKeyJwk"].KeyProperty? {
      var jwk := m.properties["publicKeyJwk"].jwk;
      KeyWritableIff(jwk.material);
      if jwk.alg.Some? {
        CleanIff(jwk.alg.value);
      }
      if ToWireKey(jwk.material).Ok? {
        UsualIsClean(ToWireKey(jwk.material).value.keyType);
      }
    }
  }

  predicate MethodsWritable(env: Env, did: string, methods: seq<VerificationMethod>) {
    && (forall i :: 0 <= i < |methods| ==> MethodWritable(env, did, methods[i]))
    && DistinctIds(methods)
  }

  /** No id is one that was seen. */
  predicate FreshIds(did: string, methods: seq<VerificationMethod>, seen: set<string>) {
    forall i :: 0 <= i < |methods| && |methods[i].id| > |did| ==> methods[i].id[|did| + 1..] !in seen
  }

  lemma {:induction false} MethodsWritableIff(env: Env, did: string, methods: seq<VerificationMethod>,
                                              seen: set<string>)
    ensures EncodeMethods(env, did, methods, seen).Ok?
            <==> MethodsWritable(env, did, methods) && FreshIds(did, methods, seen)
    decreases methods
  {
    hide EncodeMethod, MethodWritable;
    if methods != [] {
      var first, rest := methods[0], methods[1..];
      MethodWritableIff(env, did, first, seen);
      if MethodWritable(env, did, first) {
        WritableId(env, did, first);
      }
      if EncodeMethod(env, did, first, seen).Ok? {
        var fragment := first.id[|did| + 1..];
        MethodsWritableIff(env, did, rest, seen + {fragment});
        MethodsCons(env, did, first, rest, seen);
        assert methods == [first] + rest;
      }
    }
  }

  lemma WritableId(env: Env, did: string, m: VerificationMethod)
    requires MethodWritable(env, did, m)
    ensures |m.id| > |did| + 1 && m.id == did + "#" + m.id[|did| + 1..]
  {
  }

  lemma MethodsCons(env: Env, did: string, first: VerificationMethod, rest: seq<VerificationMethod>, seen: set<string>)
    requires MethodWritable(env, did, first) && first.id[|did| + 1..] !in seen
    ensures MethodsWritable(env, did, [first] + rest) && FreshIds(did, [first] + rest, seen)
            <==> MethodsWritable(env, did, rest) && FreshIds(did, rest, seen + {first.id[|did| + 1..]})
  {
    hide MethodWritable;
    WritableId(env, did, first);
    var all, fragment := [first] + rest, first.id[|did| + 1..];
    assert all[0] == first && forall i :: 0 <= i < |rest| ==> all[i + 1] == rest[i];
    if MethodsWritable(env, did, rest) {
      forall i | 0 <= i < |rest|
        ensures |rest[i].id| > |did| && (rest[i].id == first.id <==> rest[i].id[|did| + 1..] == fragment)
      {
        WritableId(env, did, rest[i]);
      }
      assert (forall i :: 0 <= i < |all| ==> MethodWritable(env, did, all[i]));
    }
    if MethodsWritable(env, did, all) {
      forall i | 0 <= i < |rest|
        ensures MethodWritable(env, did, rest[i]) && rest[i].id != first.id
        ensures |rest[i].id| > |did| && rest[i].id[|did| + 1..] != fragment
      {
        assert all[i + 1] == rest[i];
        WritableId(env, did, rest[i]);
      }
      assert DistinctIds(rest) by {
        forall i, j | 0 <= i < j < |rest|
          ensures rest[i].id != rest[j].id
        {
          assert all[i + 1].id != all[j + 1].id;
        }
      }
    }
  }

  // ------------------------------------------------------------------ services

  /** A clean text, or a non-empty list of clean texts. */
  predicate TextsWritable(j: Json) {
    || (j.JString? && Clean(j.s))
    || (j.JArray? && j.items != [] && forall i :: 0 <= i < |j.items| ==> j.items[i].JString? && Clean(j.items[i].s))
  }

  /** What a service must be. */
  predicate ServiceWritable(did: string, s: Service) {
    && Fragmented(did, s.id) && s.kind.One? && s.kind.value != "" && Clean(s.kind.value)
    && s.endpoint.Some? && TextsWritable(s.endpoint.value)
    && forall k :: k in s.properties ==> Clean(k) && k !in {"id", "t", "se"} && TextsWritable(s.properties[k])
  }

  lemma {:induction false} ArrayIff(items: seq<Json>)
    ensures ArrayStrings(items).Some? <==> forall i :: 0 <= i < |items| ==> items[i].JString?
  {
    if items != [] {
      ArrayIff(items[1..]);
      assert items == [items[0]] + items[1..];
    }
  }

  lemma ItemsIff(j: Json)
    ensures TextsWritable(j) <==> PropertyStrings(j).Some? && AllScalar(PropertyStrings(j).value)
    ensures TextsWritable(j) <==> EndpointStrings(Some(j)).Some? && EndpointStrings(Some(j)).value != []
                                  && AllScalar(EndpointStrings(Some(j)).value)
  {
    hide Clean, Scalar;
    if j.JString? {
      CleanIff(j.s);
      assert [j.s][0] == j.s;
    } else if j.JArray? {
      ArrayIff(j.items);
      if ArrayStrings(j.items).Some? {
        forall i | 0 <= i < |j.items|
          ensures Clean(j.items[i].s) <==> Scalar(ArrayStrings(j.items).value[i])
        {
          CleanIff(j.items[i].s);
        }
      }
    }
  }

  lemma {:induction false} ExtrasIff(properties: map<string, Json>, names: seq<string>)
    requires forall i :: 0 <= i < |names| ==> names[i] in properties
    ensures PlanExtras(properties, names).Ok?
            <==> forall k <- names :: Clean(k) && k !in {"id", "t", "se"} && TextsWritable(properties[k])
  {
    hide Clean, Scalar, TextsWritable, PropertyStrings, AllScalar;
    if names != [] {
      CleanIff(names[0]);
      ItemsIff(properties[names[0]]);
      ExtrasIff(properties, names[1..]);
      assert names == [names[0]] + names[1..];
    }
  }

  lemma ServiceWritableIff(s: Service, did: string)
    ensures PlanService(s, did).Ok? <==> ServiceWritable(did, s)
  {
    hide Clean, Scalar, TextsWritable, PropertyStrings, AllScalar, PlanExtras, EndpointStrings;
    if did + "#" <= s.id {
      assert s.id[|did + "#"|..] == s.id[|did| + 1..];
      CleanIff(s.id[|did| + 1..]);
    }
    if s.kind.One? {
      CleanIff(s.kind.value);
    }
    NoEndpoint();
    if s.endpoint.Some? {
      ItemsIff(s.endpoint.value);
    }
    ExtrasIff(s.properties, BTree.InOrder(s.properties.Keys));
    assert forall k :: k in s.properties <==> k in BTree.InOrder(s.properties.Keys);
  }

  lemma NoEndpoint()
    ensures EndpointStrings(None) == Some([])
  {
  }

  predicate DistinctServices(services: seq<Service>) {
    forall i, j :: 0 <= i < j < |services| ==> services[i].id != services[j].id
  }

  lemma {:induction false} ServicesWritableIff(services: seq<Service>, did: string, seen: set<string>)
    ensures PlanServices(services, did, seen).Ok?
            <==> (&& (forall i :: 0 <= i < |services| ==> ServiceWritable(did, services[i]) && services[i].id !in seen)
                  && DistinctServices(services))
    decreases services
  {
    hide PlanService, ServiceWritable;
    if services != [] {
      var first, rest := services[0], services[1..];
      ServiceWritableIff(first, did);
      ServicesWritableIff(rest, did, seen + {first.id});
      assert forall i :: 0 <= i < |rest| ==> rest[i] == services[i + 1];
      if DistinctServices(services) {
        assert DistinctServices(rest);
      }
      if PlanServices(services, did, seen).Ok? {
        forall i, j | 0 <= i < j < |services|
          ensures services[i].id != services[j].id
        {
          assert services[j] == rest[j - 1];
          if i > 0 {
            assert services[i] == rest[i - 1];
          }
        }
        forall i | 0 <= i < |services|
          ensures ServiceWritable(did, services[i]) && services[i].id !in seen
        {
          if i > 0 {
            assert services[i] == rest[i - 1];
          }
        }
      }
    }
  }

  // ------------------------------------------------------------------ the identity

  /** The identity key that the DID spells. */
  predicate IdentityKeyIs(env: Env, did: Did, key: bytes) {
    did.name == "dht" && env.z32(did.id) == Some(key) && |key| == 32 && env.isEd25519Point(key)
  }

  function Controllers(c: Option<OneOrMany>): seq<string> {
    if c.None? then [] else if c.value.One? then [c.value.value] else c.value.values
  }

  /** The method at `i` is `#0` and holds the DID's bytes under an Edwards or Montgomery curve. */
  predicate HoldsKey(doc: Document, key: bytes, i: int) {
    && 0 <= i < |doc.verificationMethod|
    && var m := doc.verificationMethod[i];
    && m.id == doc.id.ToString() + "#0"
    && "publicKeyJwk" in m.properties && m.properties["publicKeyJwk"].KeyProperty?
    && var material := m.properties["publicKeyJwk"].jwk.material;
    && (CurveIs(material, "Ed25519") || CurveIs(material, "X25519")) && material.x == Some(key)
  }

  /** That method is the identity: the DID or one of the document's controllers controls it. */
  predicate IsIdentityMethod(doc: Document, key: bytes, i: int) {
    && HoldsKey(doc, key, i)
    && (|| doc.verificationMethod[i].controller == doc.id.ToString()
        || doc.verificationMethod[i].controller in Controllers(doc.controller))
  }

  lemma IdentityKeyIff(env: Env, did: Did, key: bytes)
    ensures DecodeIdentityKey(env, did) == Ok(key) <==> IdentityKeyIs(env, did, key)
  {
  }

  lemma EncodeSame(a: bytes, b: bytes)
    ensures Base64Url.Encode(a) == Base64Url.Encode(b) <==> a == b
  {
    hide Base64Url.Encode, Base64Url.Decode;
    Base64Url.DecodeEncode(a);
    Base64Url.DecodeEncode(b);
  }

  lemma WireIsKey(m: KeyMaterial, key: bytes)
    requires ToWireKey(m).Ok? && |key| == 32
    ensures ToWireKey(m).value.raw == key
            <==> (CurveIs(m, "Ed25519") || CurveIs(m, "X25519")) && m.x == Some(key)
  {
  }

  lemma SameKeyText(env: Env, did: string, m: VerificationMethod, key: bytes)
    requires AcceptedMethod(env, did, m) && |key| == 32
    ensures "publicKeyJwk" in m.properties && m.properties["publicKeyJwk"].KeyProperty?
    ensures var material := m.properties["publicKeyJwk"].jwk.material;
            EncodeMethod(env, did, m, {}).value.keyBase64 == Base64Url.Encode(key)
            <==> (CurveIs(material, "Ed25519") || CurveIs(material, "X25519")) && material.x == Some(key)
  {
    hide ToWireKey, Base64Url.Encode, CurveIs;
    EncodedParts(env, did, m);
    var material := KeyOf(m).material;
    EncodeSame(ToWireKey(material).value.raw, key);
    WireIsKey(material, key);
  }

  /** The methods can be planned exactly when each can be written, their ids differ, and one of them is `#0` with the
      DID's own bytes. */
  lemma VmsWritableIff(env: Env, doc: Document, key: bytes)
    requires IdentityKeyIs(env, doc.id, key)
    ensures PlanVms(env, doc).Ok?
            <==> (&& doc.propertySet == map[] && doc.publicKey == []
                  && MethodsWritable(env, doc.id.ToString(), doc.verificationMethod)
                  && exists i :: HoldsKey(doc, key, i))
    ensures PlanVms(env, doc).Ok? ==>
              forall i :: HoldsKey(doc, key, i) ==>
                PlanVms(env, doc).value[0].controller == doc.verificationMethod[i].controller
  {
    hide EncodeMethod, Base64Url.Encode, MethodsWritable, MoveToFront, Did.ToString, CurveIs;
    var did := doc.id.ToString();
    IdentityKeyIff(env, doc.id, key);
    MethodsWritableIff(env, did, doc.verificationMethod, {});
    if EncodeMethods(env, did, doc.verificationMethod, {}).Ok? {
      var vms := EncodeMethods(env, did, doc.verificationMethod, {}).value;
      EncodeMethodsFacts(env, did, doc.verificationMethod, {});
      hide EncodeMethods;
      forall i | 0 <= i < |vms|
        ensures vms[i].fragment == "0" <==> doc.verificationMethod[i].id == did + "#0"
        ensures vms[i].fragment == "0" ==>
                  (vms[i].keyBase64 == Base64Url.Encode(key) <==> HoldsKey(doc, key, i))
        ensures vms[i].controller == doc.verificationMethod[i].controller
      {
        IdentityAt(env, doc, vms, key, i);
      }
      if IdentityPosition(vms).Some? {
        var p := IdentityPosition(vms).value;
        assert forall i :: 0 <= i < |vms| && vms[i].fragment == "0" ==> i == p;
        FrontIs(vms, p);
      }
    }
  }

  lemma FrontIs<T>(items: seq<T>, i: nat)
    requires i < |items|
    ensures MoveToFront(items, i)[0] == items[i]
  {
  }

  lemma IdentityAt(env: Env, doc: Document, vms: seq<EncodedVm>, key: bytes, i: nat)
    requires Encodes(env, doc.id.ToString(), doc.verificationMethod, vms) && i < |vms| && |key| == 32
    ensures vms[i].fragment == "0" <==> doc.verificationMethod[i].id == doc.id.ToString() + "#0"
    ensures vms[i].fragment == "0" ==> (vms[i].keyBase64 == Base64Url.Encode(key) <==> HoldsKey(doc, key, i))
    ensures vms[i].controller == doc.verificationMethod[i].controller
  {
    hide Base64Url.Encode, CurveIs, EncodeMethod, Did.ToString;
    var did, m := doc.id.ToString(), doc.verificationMethod[i];
    assert EncodeMethod(env, did, m, {}) == Ok(vms[i]);
    EncodedParts(env, did, m);
    SameKeyText(env, did, m, key);
    SameId(did, vms[i].fragment, "0");
    assert did + "#" + "0" == did + "#0";
  }

  // ------------------------------------------------------------------ relationships

  /** The entry refers to one of the methods. */
  predicate Known(entry: Relationship, did: string, methods: seq<VerificationMethod>) {
    exists j :: 0 <= j < |methods| && PointsAt(entry, did, methods[j].id)
  }

  predicate ListWritable(entries: seq<Relationship>, did: string, methods: seq<VerificationMethod>) {
    forall i :: 0 <= i < |entries| ==> Known(entries[i], did, methods)
  }

  /** Some entry refers to the identity. */
  predicate NamesIdentity(entries: seq<Relationship>, did: string) {
    exists i :: 0 <= i < |entries| && PointsAt(entries[i], did, did + "#0")
  }

  predicate ListsWritable(r: Relationships, did: string, methods: seq<VerificationMethod>) {
    && ListWritable(r.authentication, did, methods) && NamesIdentity(r.authentication, did)
    && ListWritable(r.assertionMethod, did, methods) && NamesIdentity(r.assertionMethod, did)
    && ListWritable(r.capabilityInvocation, did, methods) && NamesIdentity(r.capabilityInvocation, did)
    && ListWritable(r.capabilityDelegation, did, methods) && NamesIdentity(r.capabilityDelegation, did)
    && ListWritable(r.keyAgreement, did, methods)
  }

  lemma {:induction false} ResolvesIff(entries: seq<Relationship>, did: string)
    ensures ResolveAll(entries, did).Ok? <==> forall i :: 0 <= i < |entries| ==> entries[i].Referenced?
  {
    if entries != [] {
      ResolvesIff(entries[1..], did);
      assert entries == [entries[0]] + entries[1..];
    }
  }

  lemma PointsIff(entry: Relationship, did: string, id: string)
    ensures PointsAt(entry, did, id) <==> entry.Referenced? && entry.reference.Resolve(did) == id
  {
  }

  lemma {:induction false} FoundIff(vms: seq<EncodedVm>, did: string, ids: seq<string>)
    ensures LookupLabels(vms, did, ids).Some? <==> forall i :: 0 <= i < |ids| ==> LookupLabel(vms, did, ids[i], 0).Some?
    decreases ids
  {
    hide LookupLabel;
    if ids != [] {
      FoundIff(vms, did, ids[1..]);
      assert ids == [ids[0]] + ids[1..];
    }
  }

  lemma KnownIff(env: Env, did: string, methods: seq<VerificationMethod>, vms: seq<EncodedVm>, entry: Relationship)
    requires Encodes(env, did, methods, vms)
    ensures Known(entry, did, methods)
            <==> entry.Referenced? && LookupLabel(vms, did, entry.reference.Resolve(did), 0).Some?
  {
    hide Encodes, LookupLabel, VmLabel;
    if entry.Referenced? {
      var id := entry.reference.Resolve(did);
      LookupAgrees(env, did, methods, vms, id, 0);
      if IndexOf(methods, id).Some? {
        assert PointsAt(entry, did, methods[IndexOf(methods, id).value].id);
      }
    }
  }

  lemma NamesIdentityIff(entries: seq<Relationship>, did: string)
    requires ResolveAll(entries, did).Ok?
    ensures NamesIdentity(entries, did) <==> did + "#0" in ResolveAll(entries, did).value
  {
    var ids := ResolveAll(entries, did).value;
    if did + "#0" in ids {
      var i :| 0 <= i < |ids| && ids[i] == did + "#0";
      PointsIff(entries[i], did, did + "#0");
    }
    if NamesIdentity(entries, did) {
      var i :| 0 <= i < |entries| && PointsAt(entries[i], did, did + "#0");
      assert ids[i] == did + "#0";
    }
  }

  /** One list: all its entries resolve and are found, and `#0` is among them. */
  lemma ListWritableIff(env: Env, did: string, methods: seq<VerificationMethod>, vms: seq<EncodedVm>,
                        entries: seq<Relationship>)
    requires Encodes(env, did, methods, vms)
    ensures var ids := ResolveAll(entries, did);
            && (ListWritable(entries, did, methods) <==> ids.Ok? && LookupLabels(vms, did, ids.value).Some?)
            && (ids.Ok? ==> (NamesIdentity(entries, did) <==> did + "#0" in ids.value))
  {
    hide Encodes, LookupLabel, LookupLabels, Known, NamesIdentity, Reference.Resolve;
    ResolvesIff(entries, did);
    forall i | 0 <= i < |entries|
      ensures Known(entries[i], did, methods)
              <==> entries[i].Referenced? && LookupLabel(vms, did, entries[i].reference.Resolve(did), 0).Some?
    {
      KnownIff(env, did, methods, vms, entries[i]);
    }
    if ResolveAll(entries, did).Ok? {
      FoundIff(vms, did, ResolveAll(entries, did).value);
      NamesIdentityIff(entries, did);
    }
  }

  lemma {:induction false} PairsIff(vms: seq<EncodedVm>, did: string, lists: seq<ResolvedList>)
    ensures ListPairs(vms, did, lists).Ok?
            <==> forall i :: 0 <= i < |lists| ==> LookupLabels(vms, did, lists[i].ids).Some?
    decreases lists
  {
    hide LookupLabels, Join;
    if lists != [] {
      PairsIff(vms, did, lists[1..]);
      assert lists == [lists[0]] + lists[1..];
      if lists[0].ids == [] {
        FoundIff(vms, did, []);
      }
    }
  }

  lemma ListsWritableIff(env: Env, did: string, methods: seq<VerificationMethod>, vms: seq<EncodedVm>,
                         r: Relationships)
    requires Encodes(env, did, methods, vms)
    ensures var lists := ResolveLists(r, did);
            ListsWritable(r, did, methods)
            <==> lists.Ok? && MandatoryListsHold(lists.value, did + "#0") && ListPairs(vms, did, lists.value).Ok?
  {
    hide Encodes, ListWritable, NamesIdentity, ResolveAll, LookupLabels, ListPairs;
    ListWritableIff(env, did, methods, vms, r.authentication);
    ListWritableIff(env, did, methods, vms, r.assertionMethod);
    ListWritableIff(env, did, methods, vms, r.capabilityInvocation);
    ListWritableIff(env, did, methods, vms, r.capabilityDelegation);
    ListWritableIff(env, did, methods, vms, r.keyAgreement);
    if ResolveLists(r, did).Ok? {
      ListEntries(r, did);
      PairsIff(vms, did, ResolveLists(r, did).value);
    }
  }

  // ------------------------------------------------------------------ documents and packets

  predicate AllClean(items: seq<string>) {
    forall i :: 0 <= i < |items| ==> Clean(items[i])
  }

  lemma AllCleanIff(items: seq<string>)
    ensures AllScalar(items) <==> AllClean(items)
  {
    hide Clean, Scalar;
    forall i | 0 <= i < |items|
      ensures Scalar(items[i]) <==> Clean(items[i])
    {
      CleanIff(items[i]);
    }
  }

  /** What a document must be, whatever its gateways and types. */
  ghost predicate DocumentWritable(env: Env, doc: Document, key: bytes) {
    && IdentityKeyIs(env, doc.id, key)
    && doc.propertySet == map[] && doc.publicKey == []
    && AllClean(doc.alsoKnownAs) && AllClean(Controllers(doc.controller))
    && MethodsWritable(env, doc.id.ToString(), doc.verificationMethod)
    && (exists i :: IsIdentityMethod(doc, key, i))
    && (forall i :: 0 <= i < |doc.service| ==> ServiceWritable(doc.id.ToString(), doc.service[i]))
    && DistinctServices(doc.service)
    && ListsWritable(doc.relationships, doc.id.ToString(), doc.verificationMethod)
  }

  lemma ControllersIff(c: Option<OneOrMany>)
    ensures ControllerStrings(c).Ok? <==> AllClean(Controllers(c))
    ensures ControllerStrings(c).Ok? ==>
              forall s :: s in Controllers(c)
                          <==> ControllerStrings(c).value.Some? && s in ControllerStrings(c).value.value
  {
    hide Clean, Scalar;
    AllCleanIff(Controllers(c));
    if c.Some? && c.value.One? {
      CleanIff(c.value.value);
      assert Controllers(c)[0] == c.value.value;
    }
  }

  /** Names do not depend on the order of the methods. */
  lemma ListsMoved(r: Relationships, did: string, a: seq<VerificationMethod>, b: seq<VerificationMethod>)
    requires multiset(a) == multiset(b)
    ensures ListsWritable(r, did, a) <==> ListsWritable(r, did, b)
  {
    hide NamesIdentity;
    ListMoved(r.authentication, did, a, b);
    ListMoved(r.assertionMethod, did, a, b);
    ListMoved(r.capabilityInvocation, did, a, b);
    ListMoved(r.capabilityDelegation, did, a, b);
    ListMoved(r.keyAgreement, did, a, b);
    hide ListWritable;
  }

  lemma ListMoved(entries: seq<Relationship>, did: string, a: seq<VerificationMethod>, b: seq<VerificationMethod>)
    requires multiset(a) == multiset(b)
    ensures ListWritable(entries, did, a) <==> ListWritable(entries, did, b)
  {
    if ListWritable(entries, did, a) {
      ListMovedOver(entries, did, a, b);
    }
    if ListWritable(entries, did, b) {
      ListMovedOver(entries, did, b, a);
    }
  }

  lemma ListMovedOver(entries: seq<Relationship>, did: string, a: seq<VerificationMethod>,
                      b: seq<VerificationMethod>)
    requires multiset(a) == multiset(b) && ListWritable(entries, did, a)
    ensures ListWritable(entries, did, b)
  {
    hide PointsAt;
    forall i | 0 <= i < |entries|
      ensures Known(entries[i], did, b)
    {
      assert Known(entries[i], did, a);
      var j :| 0 <= j < |a| && PointsAt(entries[i], did, a[j].id);
      var k := SameElements(a, b, j);
      assert PointsAt(entries[i], did, b[k].id);
    }
  }

  lemma DocumentWritableIff(env: Env, doc: Document)
    ensures MakePlan(env, doc).Ok? <==> exists key: bytes :: DocumentWritable(env, doc, key)
  {
    hide PlanVms, ControllerStrings, PlanServices, ResolveLists, ListPairs, MandatoryListsHold, AllScalar, AllClean,
      MethodsWritable, HoldsKey, ListsWritable, ServiceWritable, Did.ToString, IdentityFirst, EncodeMethod;
    MakePlanOkIff(env, doc);
    ControllersIff(doc.controller);
    AllCleanIff(doc.alsoKnownAs);
    ServicesWritableIff(doc.service, doc.id.ToString(), {});
    if PlanVms(env, doc).Ok? {
      var key := KeyOfPlan(env, doc);
      VmsWritableIff(env, doc, key);
      var methods := IdentityFirst(doc.id.ToString(), doc.verificationMethod);
      AcceptedWhenEncoded(env, doc);
      ListsWritableIff(env, doc.id.ToString(), methods, PlanVms(env, doc).value, doc.relationships);
      ListsMoved(doc.relationships, doc.id.ToString(), methods, doc.verificationMethod);
      if MakePlan(env, doc).Ok? {
        var i :| HoldsKey(doc, key, i);
        assert IsIdentityMethod(doc, key, i);
        assert DocumentWritable(env, doc, key);
      }
    }
    if key: bytes :| DocumentWritable(env, doc, key) {
      VmsWritableIff(env, doc, key);
      var i :| IsIdentityMethod(doc, key, i);
      assert HoldsKey(doc, key, i);
    }
  }

  lemma KeyOfPlan(env: Env, doc: Document) returns (key: bytes)
    requires PlanVms(env, doc).Ok?
    ensures IdentityKeyIs(env, doc.id, key)
  {
    hide EncodeMethods, MoveToFront, Base64Url.Encode, Did.ToString;
    key := DecodeIdentityKey(env, doc.id).value;
    IdentityKeyIff(env, doc.id, key);
  }

  /** Every gateway has a host, and a domain name among them is one for the DNS. */
  predicate GatewaysUsable(env: Env, gateways: seq<Gateway>) {
    forall i :: 0 <= i < |gateways| ==>
      !gateways[i].NoHost? && (gateways[i].DomainHost? ==> env.isDnsName(gateways[i].host + "."))
  }

  lemma {:induction false} GatewaysUsableIff(env: Env, gateways: seq<Gateway>)
    ensures NsTargets(gateways).Ok? && AllHosts(env, NsTargets(gateways).value) <==> GatewaysUsable(env, gateways)
  {
    if gateways != [] {
      GatewaysUsableIff(env, gateways[1..]);
      assert gateways == [gateways[0]] + gateways[1..];
      if NsTargets(gateways).Ok? && gateways[0].DomainHost? {
        var rest := NsTargets(gateways[1..]).value;
        assert NsTargets(gateways).value == [gateways[0].host + "."] + rest;
        assert forall i :: 0 <= i < |rest| ==> NsTargets(gateways).value[i + 1] == rest[i];
        assert NsTargets(gateways).value[0] == gateways[0].host + ".";
      }
    }
  }

  predicate NumberUsable(env: Env, letter: string, i: nat) {
    env.isDnsName("_" + letter + Decimal(i) + "._did.")
  }

  /** Every record has a name for the DNS. */
  predicate NamesUsable(env: Env, doc: Document, types: seq<u64>) {
    && (doc.alsoKnownAs != [] ==> env.isDnsName("_aka._did."))
    && (doc.controller.Some? ==> env.isDnsName("_cnt._did."))
    && (forall i :: 0 <= i < |doc.verificationMethod| ==> NumberUsable(env, "k", i))
    && (forall i :: 0 <= i < |doc.service| ==> NumberUsable(env, "s", i))
    && env.isDnsName("_did." + doc.id.id + ".")
    && (types != [] ==> env.isDnsName("_typ._did."))
  }

  lemma NamedAppend(env: Env, a: seq<NamedText>, b: seq<NamedText>)
    ensures AllNamed(env, a + b) <==> AllNamed(env, a) && AllNamed(env, b)
  {
    if AllNamed(env, a + b) {
      assert forall i :: 0 <= i < |a| ==> a[i] == (a + b)[i];
      assert forall i :: 0 <= i < |b| ==> b[i] == (a + b)[|a| + i];
    }
  }

  lemma NumberedNamed(env: Env, plan: Plan, did: string)
    ensures AllNamed(env, VmTexts(plan.vms, did, 0))
            <==> forall i :: 0 <= i < |plan.vms| ==> NumberUsable(env, "k", i)
    ensures AllNamed(env, ServiceTexts(plan.services, 0))
            <==> forall i :: 0 <= i < |plan.services| ==> NumberUsable(env, "s", i)
  {
    hide VmTexts, ServiceTexts, PairsText, VmPairs, ServicePairs, Decimal;
    TextCounts(plan, did);
    var vms, svc := VmTexts(plan.vms, did, 0), ServiceTexts(plan.services, 0);
    forall i | 0 <= i < |vms|
      ensures env.isDnsName(vms[i].name) <==> NumberUsable(env, "k", i)
    {
      VmTextAt(plan.vms, did, 0, i);
      assert "_" + VmLabel(i) == "_" + "k" + Decimal(i);
    }
    forall i | 0 <= i < |svc|
      ensures env.isDnsName(svc[i].name) <==> NumberUsable(env, "s", i)
    {
      ServiceTextAt(plan.services, 0, i);
      assert "_" + ServiceLabel(i) == "_" + "s" + Decimal(i);
    }
  }

  lemma FixedNamed(env: Env, doc: Document, plan: Plan, types: seq<u64>)
    requires plan.aka == doc.alsoKnownAs && ControllerStrings(doc.controller) == Ok(plan.controllers)
    ensures AllNamed(env, AkaTexts(plan.aka)) <==> (doc.alsoKnownAs != [] ==> env.isDnsName("_aka._did."))
    ensures AllNamed(env, ControllerTexts(plan.controllers)) <==> (doc.controller.Some? ==> env.isDnsName("_cnt._did."))
    ensures AllNamed(env, TypeTexts(types)) <==> (types != [] ==> env.isDnsName("_typ._did."))
  {
    hide Join, PairsText;
    assert plan.aka != [] ==> AkaTexts(plan.aka)[0].name == "_aka._did.";
    assert doc.controller.Some? ==> ControllerTexts(plan.controllers)[0].name == "_cnt._did.";
    assert types != [] ==> TypeTexts(types)[0].name == "_typ._did.";
  }

  lemma NamesUsableIff(env: Env, doc: Document, types: seq<u64>)
    requires MakePlan(env, doc).Ok?
    ensures AllNamed(env, PlanTexts(MakePlan(env, doc).value, doc, types)) <==> NamesUsable(env, doc, types)
  {
    hide MakePlan, AkaTexts, ControllerTexts, VmTexts, ServiceTexts, TypeTexts, AllNamed, PairsText, RootPairs, PlanVms,
      PlanServices, ControllerStrings, ResolveLists, ListPairs, AllScalar, MandatoryListsHold, Did.ToString, Decimal,
      EncodeMethod, PlanService, IdentityFirst, NumberUsable;
    var plan, did := MakePlan(env, doc).value, doc.id.ToString();
    PlanFacts(env, doc);
    AcceptedWhenEncoded(env, doc);
    PlannedServices(doc.service, did, {});
    FixedNamed(env, doc, plan, types);
    NumberedNamed(env, plan, did);
    var vms, svc := VmTexts(plan.vms, did, 0), ServiceTexts(plan.services, 0);
    var root := NamedText("_did." + doc.id.id + ".",
                          PairsText(RootPairs(|plan.vms|, plan.listPairs, |plan.services|)));
    var a := AkaTexts(plan.aka) + ControllerTexts(plan.controllers);
    NamedAppend(env, AkaTexts(plan.aka), ControllerTexts(plan.controllers));
    NamedAppend(env, a, vms);
    NamedAppend(env, a + vms, svc);
    NamedAppend(env, a + vms + svc, [root]);
    NamedAppend(env, a + vms + svc + [root], TypeTexts(types));
    OneNamed(env, root);
  }

  lemma OneNamed(env: Env, text: NamedText)
    ensures AllNamed(env, [text]) <==> env.isDnsName(text.name)
  {
    assert [text][0] == text;
  }

  /** The encoder accepts exactly the writable documents whose gateways and record names can be used. */
  lemma AcceptedIff(env: Env, doc: Document, types: seq<u64>, gateways: seq<Gateway>)
    ensures EncodeAnswers(env, doc, types, gateways).Ok?
            <==> (&& (exists key: bytes :: DocumentWritable(env, doc, key))
                  && GatewaysUsable(env, gateways) && NamesUsable(env, doc, types))
  {
    hide MakePlan, NsTargets, PlanTexts, AllNamed, AllHosts, DocumentWritable, GatewaysUsable, NamesUsable, TextAnswers,
      NsAnswers;
    DocumentWritableIff(env, doc);
    GatewaysUsableIff(env, gateways);
    if MakePlan(env, doc).Ok? {
      NamesUsableIff(env, doc, types);
    }
  }
}

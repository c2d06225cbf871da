/** When the round trip is exact: documents that can be read back, documents whose ids survive,
    and the decoder fixpoint. */
module DhtFixpoint {
  import opened Wrappers
  import opened Text
  import opened Bytes
  import opened DidDocument
  import opened DhtRecords
  import opened DhtEncode
  import opened DhtDecode
  import opened DhtNormal
  import opened DhtRoundTrip
  import opened DhtRelationships
  import opened DhtTheorems
  import Base64Url

  // ------------------------------------------------------------------ decoded values have a shape

  /** Key material that survives the trip through its wire form. */
  predicate StableMaterial(env: Env, m: KeyMaterial) {
    && ToWireKey(m).Ok?
    && ParseKey(env, Decimal(ToWireKey(m).value.keyType), ToWireKey(m).value.raw).Ok?
    && ParseKey(env, Decimal(ToWireKey(m).value.keyType), ToWireKey(m).value.raw).value.material == m
  }

  /** Whatever key the decoder reads, encoding it again gives a record that decodes to it. */
  lemma ParsedKeysStable(env: Env, keyType: string, key: bytes)
    requires SoundCurves(env) && ParseKey(env, keyType, key).Ok?
    ensures StableMaterial(env, ParseKey(env, keyType, key).value.material)
  {
    assert Decimal(0) == "0" && Decimal(1) == "1" && Decimal(2) == "2" && Decimal(3) == "3";
    assert DecompressStable(env, Secp256k1, key) && DecompressStable(env, P256, key);
  }

  predicate MethodShape(env: Env, did: string, m: VerificationMethod) {
    && m.properties.Keys == {"publicKeyJwk"} && m.properties["publicKeyJwk"].KeyProperty?
    && m == KeyMethod(m.id, m.controller, KeyOf(m))
    && KeyOf(m).alg.Some? && KeyOf(m).rest == map[]
    && KeyOf(m).kid.Some? && env.thumbprint(KeyOf(m).material, map[]) == KeyOf(m).kid
    && StableMaterial(env, KeyOf(m).material)
  }

  lemma DecodedMethodShape(env: Env, did: string, recordId: string, data: string)
    requires SoundCurves(env) && DecodeMethod(env, did, recordId, data).Ok?
    ensures MethodShape(env, did, DecodeMethod(env, did, recordId, data).value)
  {
    hide ParseKey, StableMaterial, Properties, Base64Url.Decode, SoundCurves;
    var values := Properties(data);
    ParsedKeysStable(env, Get(values, "t").GetOr(""), Base64Url.Decode(values["k"]).value);
  }

  /** A string, or a list of two or more strings. */
  predicate ExtraShape(v: Json) {
    v.JString? || (v.JArray? && |v.items| >= 2 && ArrayStrings(v.items).Some?)
  }

  /** A string, or a list of strings other than the empty list and one empty string. */
  predicate EndpointShape(e: Json) {
    e.JString? || (e.JArray? && ArrayStrings(e.items).Some? && ArrayStrings(e.items).value !in {[], [""]})
  }

  predicate ServiceShape(s: Service) {
    && "type" !in s.properties && "serviceEndpoint" !in s.properties
    && (forall k :: k in s.properties ==> ExtraShape(s.properties[k]))
    && s.endpoint.Some? && EndpointShape(s.endpoint.value)
  }

  lemma {:induction false} StringsOfItems(items: seq<Json>, strings: seq<string>)
    requires |items| == |strings| && forall i :: 0 <= i < |items| ==> items[i] == JString(strings[i])
    ensures ArrayStrings(items) == Some(strings)
  {
    if items != [] {
      StringsOfItems(items[1..], strings[1..]);
      assert strings == [strings[0]] + strings[1..];
    }
  }

  lemma StringsOfStringArray(strings: seq<string>)
    ensures ArrayStrings(StringArray(strings).items) == Some(strings)
  {
    StringsOfItems(StringArray(strings).items, strings);
  }

  lemma ExtraValueShape(text: string)
    ensures ExtraShape(ExtraValue(text))
    ensures EndpointShape(ExtraValue(text))
    ensures text != "" ==> EndpointShape(ListValue(text))
  {
    var parts := Split(text, ',');
    StringsOfStringArray(parts);
    JoinSplit(text, ',');
    assert |parts| == 1 ==> Join(parts, ',') == parts[0];
    if ',' in text {
      assert |parts| >= 2;
    }
  }

  lemma DecodedServiceShape(did: string, data: string)
    requires DecodeService(did, data).Ok?
    ensures ServiceShape(DecodeService(did, data).value)
  {
    hide Properties, ExtraValue, ListValue, ExtraShape, EndpointShape;
    var values := Properties(data);
    ExtraValueShape(Get(values, "se").GetOr(""));
    forall k | k in values
      ensures ExtraShape(ExtraValue(values[k])) && EndpointShape(ExtraValue(values[k]))
    {
      ExtraValueShape(values[k]);
    }
  }

  predicate ControllerShape(c: Option<OneOrMany>) {
    c.Some? && c.value.Many? ==> |c.value.values| >= 2
  }

  predicate ListShape(entries: seq<Relationship>) {
    forall i :: 0 <= i < |entries| ==> entries[i].Referenced? && entries[i].reference.Absolute?
  }

  predicate RelationshipsShape(r: Relationships) {
    && ListShape(r.authentication) && ListShape(r.assertionMethod) && ListShape(r.capabilityInvocation)
    && ListShape(r.capabilityDelegation) && ListShape(r.keyAgreement)
  }

  predicate ProgressShape(env: Env, did: string, p: Progress) {
    && (forall i :: 0 <= i < |p.methods| ==> MethodShape(env, did, p.methods[i]))
    && (forall i :: 0 <= i < |p.services| ==> ServiceShape(p.services[i]))
    && ControllerShape(p.controller)
    && (p.types.Some? ==> p.types.value != [])
  }

  lemma {:induction false} TypesNonEmpty(texts: seq<string>)
    requires ParseTypes(texts).Ok?
    ensures |ParseTypes(texts).value| == |texts|
  {
    hide ParseU64;
    if texts != [] {
      TypesNonEmpty(texts[1..]);
    }
  }

  lemma RecordKeepsShape(env: Env, did: string, p: Progress, r: TxtRecord)
    requires SoundCurves(env) && ProgressShape(env, did, p) && ApplyRecord(env, did, p, r).Ok?
    ensures ProgressShape(env, did, ApplyRecord(env, did, p, r).value)
  {
    hide DecodeMethod, DecodeService, MethodShape, ServiceShape, SoundCurves, Properties, Split;
    if StartsWith(r.id, "aka") || StartsWith(r.id, "cnt") {
    } else if StartsWith(r.id, "k") {
      DecodedMethodShape(env, did, r.id, r.data);
    } else if StartsWith(r.id, "s") {
      DecodedServiceShape(did, r.data);
    } else if StartsWith(r.id, "typ") {
      TypesNonEmpty(Split(Properties(r.data)["id"], ','));
    }
  }

  lemma {:induction false} RecordsKeepShape(env: Env, did: string, p: Progress, records: seq<TxtRecord>)
    requires SoundCurves(env) && ProgressShape(env, did, p) && ApplyRecords(env, did, p, records).Ok?
    ensures ProgressShape(env, did, ApplyRecords(env, did, p, records).value)
    decreases records
  {
    hide ApplyRecord, ProgressShape, SoundCurves;
    if records != [] {
      RecordKeepsShape(env, did, p, records[0]);
      RecordsKeepShape(env, did, ApplyRecord(env, did, p, records[0]).value, records[1..]);
    }
  }

  lemma RootKeepsShape(r: Relationships, data: string, ids: map<string, string>)
    requires RelationshipsShape(r)
    ensures RelationshipsShape(ApplyRoot(r, data, ids))
  {
  }

  lemma {:induction false} RootsKeepShape(r: Relationships, roots: seq<string>, ids: map<string, string>)
    requires RelationshipsShape(r)
    ensures RelationshipsShape(ApplyRoots(r, roots, ids))
    decreases roots
  {
    hide ApplyRoot, RelationshipsShape;
    if roots != [] {
      RootKeepsShape(r, roots[0], ids);
      RootsKeepShape(ApplyRoot(r, roots[0], ids), roots[1..], ids);
    }
  }

  predicate DocumentShape(env: Env, d: Document) {
    && (forall i :: 0 <= i < |d.verificationMethod| ==> MethodShape(env, d.id.ToString(), d.verificationMethod[i]))
    && (forall i :: 0 <= i < |d.service| ==> ServiceShape(d.service[i]))
    && ControllerShape(d.controller)
    && RelationshipsShape(d.relationships)
    && d.propertySet == map[] && d.publicKey == []
    && Typed(env, d)
  }

  // ------------------------------------------------------------------ decoded references have a target

  /** Every label read so far leads to the id of a method read so far. */
  predicate IndexKnown(p: Progress) {
    forall k :: k in p.ids ==> IndexOf(p.methods, p.ids[k]).Some?
  }

  lemma RecordKeepsIndex(env: Env, did: string, p: Progress, r: TxtRecord)
    requires IndexKnown(p) && ApplyRecord(env, did, p, r).Ok?
    ensures IndexKnown(ApplyRecord(env, did, p, r).value)
  {
    hide DecodeMethod, DecodeService, DecodeTypes;
    if StartsWith(r.id, "k") && !StartsWith(r.id, "aka") && !StartsWith(r.id, "cnt") {
      var m := DecodeMethod(env, did, r.id, r.data).value;
      var methods := p.methods + [m];
      assert methods[|p.methods|] == m;
      forall i | 0 <= i < |p.methods|
        ensures IndexOf(methods, p.methods[i].id).Some?
      {
        assert methods[i] == p.methods[i];
      }
    }
  }

  lemma {:induction false} RecordsKeepIndex(env: Env, did: string, p: Progress, records: seq<TxtRecord>)
    requires IndexKnown(p) && ApplyRecords(env, did, p, records).Ok?
    ensures IndexKnown(ApplyRecords(env, did, p, records).value)
    decreases records
  {
    hide ApplyRecord, IndexKnown;
    if records != [] {
      RecordKeepsIndex(env, did, p, records[0]);
      RecordsKeepIndex(env, did, ApplyRecord(env, did, p, records[0]).value, records[1..]);
    }
  }

  lemma {:induction false} KnownIdsFound(labels: seq<string>, ids: map<string, string>,
                                         methods: seq<VerificationMethod>)
    requires forall k :: k in ids ==> IndexOf(methods, ids[k]).Some?
    ensures forall i :: 0 <= i < |KnownIds(labels, ids)| ==> IndexOf(methods, KnownIds(labels, ids)[i]).Some?
    decreases labels
  {
    hide IndexOf;
    if labels != [] {
      KnownIdsFound(labels[1..], ids, methods);
    }
  }

  lemma ListFound(values: map<string, string>, code: string, ids: map<string, string>, current: seq<Relationship>,
                  did: string, methods: seq<VerificationMethod>)
    requires forall k :: k in ids ==> IndexOf(methods, ids[k]).Some?
    requires NamesOnly(current, did, methods)
    ensures NamesOnly(DecodeList(values, code, ids, current), did, methods)
  {
    hide IndexOf, KnownIds;
    if Get(values, code).Some? {
      KnownIdsFound(Split(values[code], ','), ids, methods);
    }
  }

  lemma {:induction false} RootsFound(r: Relationships, roots: seq<string>, ids: map<string, string>, did: string,
                                      methods: seq<VerificationMethod>)
    requires forall k :: k in ids ==> IndexOf(methods, ids[k]).Some?
    requires AllNamesOnly(r, did, methods)
    ensures AllNamesOnly(ApplyRoots(r, roots, ids), did, methods)
    decreases roots
  {
    hide IndexOf, NamesOnly, DecodeList, Properties;
    if roots != [] {
      var values := Properties(roots[0]);
      ListFound(values, "auth", ids, r.authentication, did, methods);
      ListFound(values, "asm", ids, r.assertionMethod, did, methods);
      ListFound(values, "inv", ids, r.capabilityInvocation, did, methods);
      ListFound(values, "del", ids, r.capabilityDelegation, did, methods);
      ListFound(values, "agm", ids, r.keyAgreement, did, methods);
      RootsFound(ApplyRoot(r, roots[0], ids), roots[1..], ids, did, methods);
    }
  }

  /** Every document the decoder returns has the decoded shape, and each of its relationships refers to one
      of its methods. */
  lemma DecodedDocumentShape(env: Env, did: Did, answers: seq<Answer>)
    requires SoundCurves(env) && DecodeAnswers(env, did, answers).Ok?
    ensures var r := DecodeAnswers(env, did, answers).value;
            && r.document.id == did && DocumentShape(env, r.document) && (r.types.Some? ==> r.types.value != [])
            && AllNamesOnly(r.document.relationships, did.ToString(), r.document.verificationMethod)
  {
    hide ApplyRecords, TxtRecords, MethodShape, ServiceShape, ControllerShape, RelationshipsShape, SoundCurves, Typed,
      ApplyRoots, AllNamesOnly, IndexOf;
    var p := ApplyRecords(env, did.ToString(), START, TxtRecords(answers).value).value;
    StartShape(env, did.ToString());
    RecordsKeepShape(env, did.ToString(), START, TxtRecords(answers).value);
    RecordsKeepIndex(env, did.ToString(), START, TxtRecords(answers).value);
    RootsKeepShape(NO_RELATIONSHIPS, p.roots, p.ids);
    NothingNamed(did.ToString(), p.methods);
    RootsFound(NO_RELATIONSHIPS, p.roots, p.ids, did.ToString(), p.methods);
  }

  lemma NothingNamed(did: string, methods: seq<VerificationMethod>)
    ensures AllNamesOnly(NO_RELATIONSHIPS, did, methods)
  {
  }

  lemma StartShape(env: Env, did: string)
    ensures ProgressShape(env, did, START) && RelationshipsShape(NO_RELATIONSHIPS)
  {
  }

  // ------------------------------------------------------------------ shaped values are normal

  lemma ShapedMethodIsNormal(env: Env, did: string, m: VerificationMethod)
    requires AcceptedMethod(env, did, m) && MethodShape(env, did, m)
    ensures NormalMethod(env, did, m) == Ok(m)
  {
  }

  lemma StringArrayOfStrings(v: Json)
    requires v.JArray? && ArrayStrings(v.items).Some?
    ensures StringArray(ArrayStrings(v.items).value) == v
  {
  }

  lemma ShapedExtraIsNormal(v: Json)
    requires ExtraShape(v)
    ensures NormalValue(v) == v
  {
  }

  lemma ShapedServiceIsNormal(s: Service)
    requires ServiceShape(s)
    ensures NormalService(s) == Ok(s) <==> s.endpoint.value.JArray?
  {
    hide NormalValue, ExtraShape, StringArray;
    forall k | k in s.properties
      ensures NormalValue(s.properties[k]) == s.properties[k]
    {
      ShapedExtraIsNormal(s.properties[k]);
    }
    assert (map k | k in s.properties.Keys - {"type", "serviceEndpoint"} :: NormalValue(s.properties[k]))
           == s.properties;
    if s.endpoint.value.JArray? {
      StringArrayOfStrings(s.endpoint.value);
    } else {
      OneEndpointBecomesList(s);
    }
  }

  lemma OneEndpointBecomesList(s: Service)
    requires s.endpoint.Some? && s.endpoint.value.JString? && "serviceEndpoint" !in s.properties
    ensures NormalService(s).Ok? ==> NormalService(s).value.endpoint.value.JArray?
  {
  }

  /** A list the encoder accepts names only methods of the document. */
  lemma NoDangling(env: Env, did: string, methods: seq<VerificationMethod>, vms: seq<EncodedVm>,
                   entries: seq<Relationship>, list: ResolvedList, values: map<string, string>)
    requires Encodes(env, did, methods, vms)
    requires ResolveAll(entries, did) == Ok(list.ids) && ListSpelled(vms, did, list, values)
    ensures forall i :: 0 <= i < |entries| ==> entries[i].Referenced?
    ensures forall i :: 0 <= i < |entries| ==> IndexOf(methods, entries[i].reference.Resolve(did)).Some?
  {
    hide Encodes, LookupLabel;
    forall i | 0 <= i < |entries|
      ensures IndexOf(methods, entries[i].reference.Resolve(did)).Some?
    {
      assert list.ids[i] == entries[i].reference.Resolve(did);
      LookupAgrees(env, did, methods, vms, list.ids[i], 0);
    }
  }

  predicate NamesOnly(entries: seq<Relationship>, did: string, methods: seq<VerificationMethod>) {
    forall i :: 0 <= i < |entries| ==>
      entries[i].Referenced? && IndexOf(methods, entries[i].reference.Resolve(did)).Some?
  }

  /** Every entry of every relationship list refers to one of the methods. */
  predicate AllNamesOnly(r: Relationships, did: string, methods: seq<VerificationMethod>) {
    && NamesOnly(r.authentication, did, methods) && NamesOnly(r.assertionMethod, did, methods)
    && NamesOnly(r.capabilityInvocation, did, methods) && NamesOnly(r.capabilityDelegation, did, methods)
    && NamesOnly(r.keyAgreement, did, methods)
  }

  lemma EncodedRelationships(env: Env, doc: Document)
    requires MakePlan(env, doc).Ok?
    ensures AllNamesOnly(doc.relationships, doc.id.ToString(), IdentityFirst(doc.id.ToString(), doc.verificationMethod))
  {
    hide MakePlan, PlanVms, PlanServices, ResolveLists, ListPairs, ControllerStrings, AllScalar, MandatoryListsHold,
      ResolveAll, IdentityFirst, Encodes, DistinctFragments, DistinctCodes, ListSpelled, PairsMap, Did.ToString, Codes,
      IndexOf;
    var did, r := doc.id.ToString(), doc.relationships;
    var plan := MakePlan(env, doc).value;
    var methods := IdentityFirst(did, doc.verificationMethod);
    PlanFacts(env, doc);
    AcceptedWhenEncoded(env, doc);
    ListEntries(r, did);
    ListCodes(r, did);
    ListPairsSpell(plan.vms, did, plan.lists);
    var values := PairsMap(plan.listPairs);
    NoDangling(env, did, methods, plan.vms, r.authentication, plan.lists[0], values);
    NoDangling(env, did, methods, plan.vms, r.assertionMethod, plan.lists[1], values);
    NoDangling(env, did, methods, plan.vms, r.capabilityInvocation, plan.lists[2], values);
    NoDangling(env, did, methods, plan.vms, r.capabilityDelegation, plan.lists[3], values);
    NoDangling(env, did, methods, plan.vms, r.keyAgreement, plan.lists[4], values);
  }

  lemma ShapedRelationshipsAreNormal(r: Relationships, did: string, methods: seq<VerificationMethod>,
                                     normal: seq<VerificationMethod>)
    requires RelationshipsShape(r) && AllNamesOnly(r, did, methods) && |methods| == |normal|
    requires forall i :: 0 <= i < |methods| ==> methods[i].id == normal[i].id
    ensures NormalRelationships(r, did, methods, normal) == r
  {
  }

  // ------------------------------------------------------------------ the fixpoint

  predicate IdentityLeads(d: Document) {
    d.verificationMethod != [] && d.verificationMethod[0].id == d.id.ToString() + "#0"
  }

  predicate EndpointsAreLists(d: Document) {
    forall i :: 0 <= i < |d.service| ==> EndpointIsList(d.service[i])
  }

  lemma IdentityStays(did: string, methods: seq<VerificationMethod>)
    requires methods != [] && methods[0].id == did + "#0"
    ensures IdentityFirst(did, methods) == methods
  {
  }

  lemma NormalLeadsWithIdentity(env: Env, d: Document)
    requires PlanVms(env, d).Ok? && AcceptedMethods(env, d) && Normal(env, d).Ok?
    ensures IdentityLeads(Normal(env, d).value)
  {
    hide Typed, NormalRelationships, NormalServices, EncodeMethod;
    var did := d.id.ToString();
    var methods := IdentityFirst(did, d.verificationMethod);
    AcceptedWhenEncoded(env, d);
    IdentityFirstAccepted(env, d);
    EncodedId(env, did, methods[0]);
    IdentityKeepsName(env, did, methods[0]);
  }

  lemma IdentityKeepsName(env: Env, did: string, m: VerificationMethod)
    requires AcceptedMethod(env, did, m) && m.id == did + "#0"
    ensures NormalMethod(env, did, m).Ok? ==> NormalMethod(env, did, m).value.id == m.id
  {
  }

  lemma {:induction false} ShapedMethodsAreNormal(env: Env, did: string, methods: seq<VerificationMethod>)
    requires forall i :: 0 <= i < |methods| ==>
               AcceptedMethod(env, did, methods[i]) && MethodShape(env, did, methods[i])
    ensures NormalMethods(env, did, methods) == Ok(methods)
  {
    hide AcceptedMethod, MethodShape, NormalMethod;
    if methods != [] {
      ShapedMethodIsNormal(env, did, methods[0]);
      ShapedMethodsAreNormal(env, did, methods[1..]);
      assert methods == [methods[0]] + methods[1..];
    }
  }

  predicate EndpointIsList(s: Service) {
    s.endpoint.Some? && s.endpoint.value.JArray?
  }

  lemma ShapedServicesAreNormal(services: seq<Service>)
    requires forall i :: 0 <= i < |services| ==> ServiceShape(services[i])
    ensures NormalServices(services) == Ok(services)
            <==> forall i :: 0 <= i < |services| ==> EndpointIsList(services[i])
  {
    hide NormalService;
    forall i | 0 <= i < |services|
      ensures NormalService(services[i]) == Ok(services[i]) <==> EndpointIsList(services[i])
    {
      ShapedServiceIsNormal(services[i]);
    }
    hide ServiceShape, EndpointIsList;
    if NormalServices(services).Ok? && forall i :: 0 <= i < |services| ==> EndpointIsList(services[i]) {
      assert NormalServices(services).value == services;
    }
  }

  /** When every other part is normal, the document is normal as soon as its services are. */
  lemma NormalOfParts(env: Env, d: Document)
    requires AcceptedMethods(env, d) && Typed(env, d) && d.propertySet == map[] && d.publicKey == []
    requires IdentityFirst(d.id.ToString(), d.verificationMethod) == d.verificationMethod
    requires NormalMethods(env, d.id.ToString(), d.verificationMethod) == Ok(d.verificationMethod)
    requires NormalRelationships(d.relationships, d.id.ToString(), d.verificationMethod, d.verificationMethod)
             == d.relationships
    requires NormalController(d.controller) == d.controller
    ensures Normal(env, d) == Ok(d) <==> NormalServices(d.service) == Ok(d.service)
  {
    hide NormalMethods, NormalServices, NormalRelationships, NormalController, IdentityFirst, AcceptedMethod, Typed,
      Did.ToString;
  }

  lemma NormalNeedsServices(env: Env, d: Document)
    requires AcceptedMethods(env, d) && Normal(env, d) == Ok(d)
    ensures NormalServices(d.service) == Ok(d.service)
  {
  }

  /** With `#0` in front, every part of a shaped document but its services is normal. */
  lemma ShapedPartsAreNormal(env: Env, d: Document)
    requires DocumentShape(env, d) && MakePlan(env, d).Ok? && AcceptedMethods(env, d) && IdentityLeads(d)
    ensures Normal(env, d) == Ok(d) <==> NormalServices(d.service) == Ok(d.service)
  {
    hide MakePlan, MethodShape, ServiceShape, RelationshipsShape, Typed, NormalMethods, NormalServices,
      NormalRelationships, AllNamesOnly, AcceptedMethod, Did.ToString, IdentityFirst, Normal;
    var did := d.id.ToString();
    EncodedRelationships(env, d);
    IdentityStays(did, d.verificationMethod);
    ShapedMethodsAreNormal(env, did, d.verificationMethod);
    ShapedRelationshipsAreNormal(d.relationships, did, d.verificationMethod, d.verificationMethod);
    NormalOfParts(env, d);
  }

  /** A document of decoded shape that the encoder accepts is its own normal form exactly when `#0`
      is its first method and no service endpoint is a bare string. */
  lemma ShapedDocumentIsNormal(env: Env, d: Document)
    requires DocumentShape(env, d) && MakePlan(env, d).Ok?
    ensures AcceptedMethods(env, d)
    ensures Normal(env, d) == Ok(d) <==> IdentityLeads(d) && EndpointsAreLists(d)
  {
    ShapedServicesOfDocument(env, d);
    hide DocumentShape, MakePlan, PlanVms, NormalServices, Normal, EndpointsAreLists, IdentityLeads, AcceptedMethods;
    PlanFacts(env, d);
    AcceptedWhenEncoded(env, d);
    if Normal(env, d) == Ok(d) {
      NormalLeadsWithIdentity(env, d);
      NormalNeedsServices(env, d);
    }
    if IdentityLeads(d) {
      ShapedPartsAreNormal(env, d);
    }
  }

  lemma ShapedServicesOfDocument(env: Env, d: Document)
    requires DocumentShape(env, d)
    ensures NormalServices(d.service) == Ok(d.service) <==> EndpointsAreLists(d)
  {
    hide MethodShape, ServiceShape, RelationshipsShape, Typed, NormalServices, EndpointIsList, Did.ToString;
    ShapedServicesAreNormal(d.service);
  }

  /** The decoder fixpoint: encoding what was decoded and decoding it again changes nothing exactly
      when `#0` was read first and no service endpoint was read as a bare string. */
  lemma DecoderFixpoint(env: Env, did: Did, answers: seq<Answer>, gateways: seq<Gateway>)
    requires SoundCurves(env) && DecodeAnswers(env, did, answers).Ok?
    requires var r := DecodeAnswers(env, did, answers).value;
             EncodeAnswers(env, r.document, r.types.GetOr([]), gateways).Ok?
    ensures var r := DecodeAnswers(env, did, answers).value;
            var again := EncodeAnswers(env, r.document, r.types.GetOr([]), gateways).value;
            DecodeAnswers(env, did, again) == Ok(r) <==> IdentityLeads(r.document) && EndpointsAreLists(r.document)
  {
    hide DecodeAnswers, Normal, MakePlan, DocumentShape, IdentityLeads, EndpointsAreLists, SoundCurves, AcceptedMethods,
      PlanTexts;
    var r := DecodeAnswers(env, did, answers).value;
    DecodedDocumentShape(env, did, answers);
    EncodeThenDecode(env, r.document, r.types.GetOr([]), gateways);
    ShapedDocumentIsNormal(env, r.document);
  }
}

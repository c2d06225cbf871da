/** Every identity can be published: the smallest document of any `did:dht` identifier is accepted and
    reads back. */
module DhtIdentity {
  import opened Wrappers
  import opened Text
  import opened Bytes
  import opened DidDocument
  import opened DhtRecords
  import opened DhtEncode
  import opened DhtDecode
  import opened DhtNormal
  import opened DhtTheorems
  import opened DhtDocuments
  import opened DhtRepublish
  import Base64Url

  // ------------------------------------------------------------------ small documents

  /** A method that holds a bare key. */
  function PlainMethod(did: string, fragment: string, material: KeyMaterial): VerificationMethod {
    KeyMethod(did + "#" + fragment, did, Jwk(material, None, None, map[]))
  }

  /** A document whose identity method serves the four mandatory purposes. */
  function SmallDocument(did: Did, controller: Option<OneOrMany>, methods: seq<VerificationMethod>,
                         agreements: seq<Relationship>, services: seq<Service>): Document {
    var uses := [Referenced(Absolute(did.ToString() + "#0"))];
    Document(did, [], controller, methods, Relationships(uses, uses, uses, uses, agreements), services, map[], [])
  }

  /** The names of the records that a small document is written in. */
  predicate UsualNames(env: Env, did: Did) {
    && (forall i :: 0 <= i < 3 ==> env.isDnsName("_" + VmLabel(i) + "._did."))
    && env.isDnsName("_" + ServiceLabel(0) + "._did.") && env.isDnsName("_cnt._did.") && env.isDnsName("_typ._did.")
    && env.isDnsName("_did." + did.id + ".")
  }

  lemma PlainMethodEncodes(env: Env, did: string, fragment: string, material: KeyMaterial)
    requires Scalar(did) && fragment != "" && Scalar(fragment)
    requires ToWireKey(material).Ok? && env.thumbprint(material, map[]).Some?
    ensures var r := EncodeMethod(env, did, PlainMethod(did, fragment, material), {});
            && r.Ok? && r.value.fragment == fragment && r.value.controller == did
            && r.value.keyType == ToWireKey(material).value.keyType
            && r.value.keyBase64 == Base64Url.Encode(ToWireKey(material).value.raw)
  {
    hide Base64Url.Encode, ToWireKey, Scalar;
    var m := PlainMethod(did, fragment, material);
    assert m.id[|did + "#"|..] == fragment;
    assert m.properties.Keys == {"publicKeyJwk"};
  }

  lemma SmallLists(did: string, vms: seq<EncodedVm>, agreements: seq<Relationship>)
    requires LookupLabel(vms, did, did + "#0", 0).Some?
    requires forall i :: 0 <= i < |agreements| ==>
               agreements[i].Referenced? && LookupLabel(vms, did, agreements[i].reference.Resolve(did), 0).Some?
    ensures var uses := [Referenced(Absolute(did + "#0"))];
            var lists := ResolveLists(Relationships(uses, uses, uses, uses, agreements), did);
            lists.Ok? && MandatoryListsHold(lists.value, did + "#0") && ListPairs(vms, did, lists.value).Ok?
  {
    hide LookupLabel, LookupLabels, Join;
    var id := did + "#0";
    var uses := [Referenced(Absolute(id))];
    ResolveOfReferences(uses, did);
    ResolveOfReferences(agreements, did);
    assert ResolveAll(uses, did).value == [id];
    LabelsFound(vms, did, [id]);
    LabelsFound(vms, did, ResolveAll(agreements, did).value);
    var lists := ResolveLists(Relationships(uses, uses, uses, uses, agreements), did).value;
    assert id in [id];
    ListPairsOk(vms, did, lists);
  }

  /** A small document is accepted as soon as its methods, its services and its controllers are. */
  lemma SmallPlans(env: Env, did: Did, key: bytes, controller: Option<OneOrMany>, methods: seq<VerificationMethod>,
                   vms: seq<EncodedVm>, i: nat, agreements: seq<Relationship>, services: seq<Service>)
    requires DecodeIdentityKey(env, did) == Ok(key) && ControllerStrings(controller).Ok?
    requires EncodeMethods(env, did.ToString(), methods, {}) == Ok(vms) && IdentityPosition(vms) == Some(i)
    requires vms[i].keyBase64 == Base64Url.Encode(key) && vms[i].controller == did.ToString()
    requires PlanServices(services, did.ToString(), {}).Ok?
    requires forall k :: 0 <= k < |agreements| ==>
               && agreements[k].Referenced?
               && LookupLabel(MoveToFront(vms, i), did.ToString(), agreements[k].reference.Resolve(did.ToString()),
                              0).Some?
    ensures var doc := SmallDocument(did, controller, methods, agreements, services);
            && PlanVms(env, doc) == Ok(MoveToFront(vms, i)) && MakePlan(env, doc).Ok?
            && MakePlan(env, doc).value.vms == MoveToFront(vms, i)
  {
    hide EncodeMethods, Base64Url.Encode, ResolveLists, ListPairs, PlanServices, ControllerStrings, MandatoryListsHold,
      Did.ToString;
    var doc := SmallDocument(did, controller, methods, agreements, services);
    var text, front := did.ToString(), MoveToFront(vms, i);
    assert front[0] == vms[i];
    assert PlanVms(env, doc) == Ok(front);
    hide PlanVms, MoveToFront;
    assert text + "#" + front[0].fragment == text + "#0";
    SmallLists(text, front, agreements);
    hide MakePlan;
    MakePlanOkIff(env, doc);
    PlanFacts(env, doc);
  }

  lemma {:induction false} VmTextsNamed(env: Env, vms: seq<EncodedVm>, did: string, start: nat)
    requires forall i :: start <= i < start + |vms| ==> env.isDnsName("_" + VmLabel(i) + "._did.")
    ensures AllNamed(env, VmTexts(vms, did, start))
    decreases vms
  {
    hide VmLabel, PairsText, VmPairs;
    if vms != [] {
      VmTextsNamed(env, vms[1..], did, start + 1);
    }
  }

  lemma SmallNamed(env: Env, p: Plan, doc: Document, types: seq<u64>)
    requires UsualNames(env, doc.id) && p.aka == [] && |p.vms| <= 3 && |p.services| <= 1
    ensures AllNamed(env, PlanTexts(p, doc, types))
  {
    hide VmLabel, ServiceLabel, PairsText, VmPairs, ServicePairs, RootPairs, Join, Did.ToString;
    VmTextsNamed(env, p.vms, doc.id.ToString(), 0);
    assert |p.services| == 1 ==> p.services[1..] == [];
    assert AllNamed(env, ServiceTexts(p.services, 0));
  }

  /** Gateways whose hosts, if they have a name, have one that the DNS library accepts. */
  predicate UsableGateways(env: Env, gateways: seq<Gateway>) {
    NsTargets(gateways).Ok? && AllHosts(env, NsTargets(gateways).value)
  }

  lemma SmallEncodes(env: Env, doc: Document, types: seq<u64>, gateways: seq<Gateway>)
    requires MakePlan(env, doc).Ok? && UsualNames(env, doc.id) && UsableGateways(env, gateways)
    requires doc.alsoKnownAs == [] && |doc.verificationMethod| <= 3 && |doc.service| <= 1
    ensures EncodeAnswers(env, doc, types, gateways).Ok?
  {
    hide MakePlan, PlanVms, PlanServices, AllNamed, AllHosts, PlanTexts, TextAnswers, NsTargets, NsAnswers, UsualNames,
      MoveToFront, EncodeMethod, Did.ToString;
    PlanFacts(env, doc);
    AcceptedWhenEncoded(env, doc);
    ServiceCount(doc.service, doc.id.ToString(), {});
    SmallNamed(env, MakePlan(env, doc).value, doc, types);
  }

  // ------------------------------------------------------------------ the smallest document

  function Ed25519Material(key: bytes): KeyMaterial {
    OkpMaterial("Ed25519", key)
  }

  /** What it takes for an identity key to be published. */
  predicate Identity(env: Env, did: Did, key: bytes) {
    && DecodeIdentityKey(env, did) == Ok(key) && Scalar(did.ToString())
    && env.thumbprint(Ed25519Material(key), map[]).Some?
  }

  function IdentityMethod(did: Did, key: bytes): VerificationMethod {
    PlainMethod(did.ToString(), "0", Ed25519Material(key))
  }

  /** One Ed25519 key, the identity key, used for the four mandatory purposes. */
  function SmallestDocument(did: Did, key: bytes): Document {
    SmallDocument(did, None, [IdentityMethod(did, key)], [], [])
  }

  lemma IdentityEncodes(env: Env, did: Did, key: bytes)
    requires Identity(env, did, key)
    ensures EncodeMethod(env, did.ToString(), IdentityMethod(did, key), {}).Ok?
    ensures var vm := EncodeMethod(env, did.ToString(), IdentityMethod(did, key), {}).value;
            && vm.fragment == "0" && vm.keyBase64 == Base64Url.Encode(key) && vm.controller == did.ToString()
            && EncodeMethods(env, did.ToString(), [IdentityMethod(did, key)], {}) == Ok([vm])
            && IdentityPosition([vm]) == Some(0) && MoveToFront([vm], 0) == [vm]
  {
    hide EncodeMethod, Base64Url.Encode, Did.ToString;
    PlainMethodEncodes(env, did.ToString(), "0", Ed25519Material(key));
    var m := IdentityMethod(did, key);
    var vm := EncodeMethod(env, did.ToString(), m, {}).value;
    EncodeMethodsOk(env, did.ToString(), [m], [vm], {});
    assert [vm][1..] == [] && [vm][..0] == [];
  }

  /** The identity key alone, with any controllers and services the encoder accepts. */
  lemma IdentityPlans(env: Env, did: Did, key: bytes, controller: Option<OneOrMany>, services: seq<Service>)
    requires Identity(env, did, key) && ControllerStrings(controller).Ok?
    requires PlanServices(services, did.ToString(), {}).Ok?
    ensures MakePlan(env, SmallDocument(did, controller, [IdentityMethod(did, key)], [], services)).Ok?
  {
    hide EncodeMethod, EncodeMethods, Base64Url.Encode, Did.ToString, PlanServices, ControllerStrings, MakePlan,
      MoveToFront, Scalar;
    IdentityEncodes(env, did, key);
    var vm := EncodeMethod(env, did.ToString(), IdentityMethod(did, key), {}).value;
    SmallPlans(env, did, key, controller, [IdentityMethod(did, key)], [vm], 0, [], services);
  }

  /** The identity method reads back, under its own name. */
  lemma IdentityReads(env: Env, did: Did, key: bytes)
    requires Identity(env, did, key)
    ensures var text, m := did.ToString(), IdentityMethod(did, key);
            && AcceptedMethod(env, text, m) && KeyReadable(env, m) && WireFragment(env, text, m) == "0"
            && NormalMethod(env, text, m).Ok? && NormalMethod(env, text, m).value.id == text + "#0"
            && CanonicalMethod(env, text, m)
  {
    hide Base64Url.Encode, Did.ToString;
    var text, m := did.ToString(), IdentityMethod(did, key);
    IdentityEncodes(env, did, key);
    assert (text + "#0")[|text| + 1..] == "0";
    assert text + "#" + "0" == text + "#0";
    assert Decimal(0) == "0";
    NormalKeyIff(env, text, m);
    NormalId(env, text, m);
  }

  /** Whatever the identity key, types and gateways, the smallest document is accepted, and it reads back
      wherever its identifiers are valid. */
  lemma EveryIdentityPublishes(env: Env, did: Did, key: bytes, types: seq<u64>, gateways: seq<Gateway>)
    requires Identity(env, did, key) && UsualNames(env, did) && UsableGateways(env, gateways)
    ensures var doc := SmallestDocument(did, key);
            && EncodeAnswers(env, doc, types, gateways).Ok?
            && (Typed(env, doc) ==> DecodeAnswers(env, did, EncodeAnswers(env, doc, types, gateways).value).Ok?)
  {
    hide MakePlan, EncodeAnswers, DecodeAnswers, EncodeMethod, Scalar, UsualNames, UsableGateways, NormalMethod,
      KeyReadable, CanonicalMethod, WireFragment;
    var doc := SmallestDocument(did, key);
    IdentityPlans(env, did, key, None, []);
    SmallEncodes(env, doc, types, gateways);
    if Typed(env, doc) {
      IdentityReads(env, did, key);
      ReadableIff(env, doc, types, gateways);
      assert did.ToString() + "#" + "0" == did.ToString() + "#0";
      assert TypedMethod(env, doc.verificationMethod[0]);
    }
  }
}

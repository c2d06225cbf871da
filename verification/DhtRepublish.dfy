/** A document that was read back can be published again, and reading it again changes nothing. */
module DhtRepublish {
  import opened Wrappers
  import opened Text
  import opened Bytes
  import opened DidDocument
  import opened DhtRecords
  import opened DhtEncode
  import opened DhtDecode
  import opened DhtNormal
  import opened DhtRoundTrip
  import opened DhtRelationships
  import opened DhtTheorems
  import opened DhtFixpoint
  import opened DhtDocuments
  import Base64Url
  import BTree

  // ------------------------------------------------------------------ methods

  /** The read-back key has the same registered type, and the same bytes unless it is a curve point. */
  lemma ReadBackWire(env: Env, keyType: nat, raw: bytes)
    requires SoundCurves(env) && keyType <= 3 && ParseKey(env, Decimal(keyType), raw).Ok?
    ensures var m := ParseKey(env, Decimal(keyType), raw).value.material;
            && ToWireKey(m).Ok? && ToWireKey(m).value.keyType == keyType
            && (keyType in {0, 3} ==> ToWireKey(m).value.raw == raw)
  {
    assert Decimal(0) == "0" && Decimal(1) == "1" && Decimal(2) == "2" && Decimal(3) == "3";
    assert DecompressStable(env, Secp256k1, raw) && DecompressStable(env, P256, raw);
  }

  /** A method read back encodes again exactly when its fragment can be written, to a record with the same
      type and controller. */
  lemma NormalMethodEncodesIff(env: Env, did: string, m: VerificationMethod)
    requires SoundCurves(env) && AcceptedMethod(env, did, m) && NormalMethod(env, did, m).Ok?
    ensures var fragment := WireFragment(env, did, m);
            AcceptedMethod(env, did, NormalMethod(env, did, m).value) <==> fragment != "" && Scalar(fragment)
    ensures AcceptedMethod(env, did, NormalMethod(env, did, m).value) ==>
              var vm := EncodeMethod(env, did, m, {}).value;
              var again := EncodeMethod(env, did, NormalMethod(env, did, m).value, {}).value;
              && again.fragment == WireFragment(env, did, m) && again.keyType == vm.keyType
              && again.controller == vm.controller
              && (vm.keyType in {0, 3} ==> again.keyBase64 == vm.keyBase64)
  {
    var fragment := WireFragment(env, did, m);
    NormalId(env, did, m);
    hide ToWireKey, ParseKey, SoundCurves, Base64Url.Encode, Decimal, DefaultAlgorithm, WireFragment, Scalar;
    var n := NormalMethod(env, did, m).value;
    var wire := ToWireKey(KeyOf(m).material).value;
    ReadBackWire(env, wire.keyType, wire.raw);
    ParsedDefault(env, wire.keyType, wire.raw);
    assert n.properties.Keys == {"publicKeyJwk"};
    assert (did + "#" + fragment)[|did + "#"|..] == fragment;
  }

  lemma {:induction false} EncodeMethodsOk(env: Env, did: string, methods: seq<VerificationMethod>,
                                           vms: seq<EncodedVm>, seen: set<string>)
    requires Encodes(env, did, methods, vms) && DistinctFragments(vms)
    requires forall i :: 0 <= i < |vms| ==> vms[i].fragment !in seen
    ensures EncodeMethods(env, did, methods, seen) == Ok(vms)
    decreases methods
  {
    if methods != [] {
      FreshSeen(env, did, methods[0], seen);
      hide EncodeMethod;
      EncodeMethodsOk(env, did, methods[1..], vms[1..], seen + {vms[0].fragment});
      assert vms == [vms[0]] + vms[1..];
    }
  }

  lemma FreshSeen(env: Env, did: string, m: VerificationMethod, seen: set<string>)
    requires AcceptedMethod(env, did, m) && EncodeMethod(env, did, m, {}).value.fragment !in seen
    ensures EncodeMethod(env, did, m, seen) == EncodeMethod(env, did, m, {})
  {
  }

  // ------------------------------------------------------------------ services

  /** A property that takes the place of the type is one non-empty string. */
  predicate KindWritable(s: Service) {
    "type" in s.properties ==>
      var items := PropertyStrings(s.properties["type"]);
      items.Some? && |items.value| == 1 && items.value[0] != ""
  }

  lemma NormalItemsKept(items: seq<string>)
    requires items != []
    ensures PropertyStrings(NormalItems(items)) == Some(items)
  {
    if |items| == 1 {
      assert items == [items[0]];
    } else {
      StringsOfStringArray(items);
    }
  }

  lemma {:induction false} PlanExtrasOk(properties: map<string, Json>, names: seq<string>)
    requires forall i :: 0 <= i < |names| ==> names[i] in properties
    requires forall i :: 0 <= i < |names| ==>
               && names[i] !in {"id", "t", "se"} && Scalar(names[i])
               && PropertyStrings(properties[names[i]]).Some? && AllScalar(PropertyStrings(properties[names[i]]).value)
    ensures PlanExtras(properties, names).Ok?
    decreases names
  {
    hide PropertyStrings;
    if names != [] {
      PlanExtrasOk(properties, names[1..]);
    }
  }

  /** What the encoder has checked of each extra property. */
  predicate ExtraWritten(properties: map<string, Json>, name: string) {
    && name in properties && name !in {"id", "t", "se"} && Scalar(name)
    && PropertyStrings(properties[name]).Some? && AllScalar(PropertyStrings(properties[name]).value)
  }

  lemma ExtrasWritten(properties: map<string, Json>)
    requires PlanExtras(properties, BTree.InOrder(properties.Keys)).Ok?
    ensures forall k :: k in properties ==> ExtraWritten(properties, k)
  {
    hide PropertyStrings, BTree.InOrder, PairsMap;
    var names := BTree.InOrder(properties.Keys);
    ExtrasPlanned(properties, names);
    forall k | k in properties
      ensures ExtraWritten(properties, k)
    {
      assert k in names;
      assert k in PairsMap(ExtraPairs(PlanExtras(properties, names).value));
    }
  }

  lemma NormalExtrasOk(properties: map<string, Json>, normal: map<string, Json>)
    requires forall k :: k in properties ==> ExtraWritten(properties, k)
    requires normal.Keys <= properties.Keys && forall k :: k in normal ==> normal[k] == NormalValue(properties[k])
    ensures PlanExtras(normal, BTree.InOrder(normal.Keys)).Ok?
  {
    hide PropertyStrings, BTree.InOrder;
    var names := BTree.InOrder(normal.Keys);
    forall i | 0 <= i < |names|
      ensures && names[i] in normal && names[i] !in {"id", "t", "se"} && Scalar(names[i])
              && PropertyStrings(normal[names[i]]).Some? && AllScalar(PropertyStrings(normal[names[i]]).value)
    {
      assert names[i] in names;
      assert ExtraWritten(properties, names[i]);
      NormalItemsKept(PropertyStrings(properties[names[i]]).value);
    }
    PlanExtrasOk(normal, names);
  }

  lemma NormalEndpointWritten(s: Service)
    requires EndpointStrings(s.endpoint).Some? && EndpointStrings(s.endpoint).value != []
    requires AllScalar(EndpointStrings(s.endpoint).value)
    requires forall k :: k in s.properties ==> ExtraWritten(s.properties, k)
    requires NormalService(s).Ok?
    ensures var e := EndpointStrings(NormalService(s).value.endpoint);
            e.Some? && e.value != [] && AllScalar(e.value)
  {
    hide AllScalar;
    if "serviceEndpoint" in s.properties {
      assert ExtraWritten(s.properties, "serviceEndpoint");
      var items := PropertyStrings(s.properties["serviceEndpoint"]).value;
      if |items| == 1 {
        assert items == [items[0]];
      } else {
        StringsOfStringArray(items);
      }
    } else {
      StringsOfStringArray(EndpointStrings(s.endpoint).value);
    }
  }

  /** A service read back encodes again exactly when no property called `type` stands in its way. */
  lemma NormalServiceEncodesIff(s: Service, did: string)
    requires PlanService(s, did).Ok? && NormalService(s).Ok?
    ensures PlanService(NormalService(s).value, did).Ok? <==> KindWritable(s)
    ensures NormalService(s).value.id == s.id
  {
    hide BTree.InOrder, PlanExtras, NormalValue, ArrayStrings, PropertyStrings, EndpointStrings;
    var n := NormalService(s).value;
    ExtrasWritten(s.properties);
    NormalExtrasOk(s.properties, n.properties);
    NormalEndpointWritten(s);
    if "type" in s.properties {
      assert ExtraWritten(s.properties, "type");
      var items := PropertyStrings(s.properties["type"]).value;
      assert n.kind == NormalKind(items);
    }
  }

  lemma {:induction false} NormalServicesEncodeIff(services: seq<Service>, normal: seq<Service>, did: string,
                                                   seen: set<string>)
    requires PlanServices(services, did, seen).Ok? && NormalServices(services) == Ok(normal)
    ensures PlanServices(normal, did, seen).Ok? <==> forall i :: 0 <= i < |services| ==> KindWritable(services[i])
    decreases services
  {
    hide PlanService, NormalService, KindWritable;
    if services != [] {
      NormalServiceEncodesIff(services[0], did);
      assert NormalServices(services[1..]) == Ok(normal[1..]) by {
        assert normal == [normal[0]] + NormalServices(services[1..]).value;
      }
      NormalServicesEncodeIff(services[1..], normal[1..], did, seen + {services[0].id});
      assert services == [services[0]] + services[1..];
    }
  }

  // ------------------------------------------------------------------ relationships

  lemma {:induction false} ResolveOfReferences(entries: seq<Relationship>, did: string)
    requires forall i :: 0 <= i < |entries| ==> entries[i].Referenced?
    ensures ResolveAll(entries, did).Ok?
    decreases entries
  {
    if entries != [] {
      ResolveOfReferences(entries[1..], did);
    }
  }

  lemma {:induction false} LabelsFound(vms: seq<EncodedVm>, did: string, ids: seq<string>)
    requires forall i :: 0 <= i < |ids| ==> LookupLabel(vms, did, ids[i], 0).Some?
    ensures LookupLabels(vms, did, ids).Some?
    decreases ids
  {
    hide LookupLabel;
    if ids != [] {
      LabelsFound(vms, did, ids[1..]);
    }
  }

  lemma {:induction false} ListPairsOk(vms: seq<EncodedVm>, did: string, lists: seq<ResolvedList>)
    requires forall i :: 0 <= i < |lists| ==> LookupLabels(vms, did, lists[i].ids).Some?
    ensures ListPairs(vms, did, lists).Ok?
    decreases lists
  {
    hide LookupLabels, Join;
    if lists != [] {
      ListPairsOk(vms, did, lists[1..]);
    }
  }

  /** The list of an accepted document, read back: every entry is a reference to a method read back. */
  lemma NormalListResolves(env: Env, did: string, methods: seq<VerificationMethod>, normal: seq<VerificationMethod>,
                           again: seq<EncodedVm>, entries: seq<Relationship>)
    requires |methods| == |normal| && NamesOnly(entries, did, methods) && Encodes(env, did, normal, again)
    ensures var list := ResolveAll(NormalList(entries, did, methods, normal), did);
            && list.Ok? && LookupLabels(again, did, list.value).Some?
            && (methods != [] && methods[0].id == normal[0].id && Names(entries, did, methods[0].id) ==>
                  methods[0].id in list.value)
  {
    hide Encodes, LookupLabels, LookupLabel;
    var after := NormalList(entries, did, methods, normal);
    ResolveOfReferences(after, did);
    var ids := ResolveAll(after, did).value;
    forall i | 0 <= i < |ids|
      ensures LookupLabel(again, did, ids[i], 0).Some?
    {
      var k := IndexOf(methods, entries[i].reference.Resolve(did)).value;
      assert after[i] == Referenced(Absolute(normal[k].id));
      LookupAgrees(env, did, normal, again, ids[i], 0);
    }
    LabelsFound(again, did, ids);
    if methods != [] && methods[0].id == normal[0].id && Names(entries, did, methods[0].id) {
      var i :| 0 <= i < |entries| && entries[i].Referenced? && entries[i].reference.Resolve(did) == methods[0].id;
      assert IndexOf(methods, methods[0].id) == Some(0);
      assert ids[i] == methods[0].id;
    }
  }

  /** All five lists, read back, can be written again, and the mandatory ones still name `#0`. */
  lemma NormalListsPlan(env: Env, did: string, methods: seq<VerificationMethod>, normal: seq<VerificationMethod>,
                        again: seq<EncodedVm>, r: Relationships)
    requires |methods| == |normal| && methods != [] && AllNamesOnly(r, did, methods) && Encodes(env, did, normal, again)
    requires methods[0].id == did + "#0" && normal[0].id == did + "#0"
    requires ResolveLists(r, did).Ok? && MandatoryListsHold(ResolveLists(r, did).value, did + "#0")
    ensures var lists := ResolveLists(NormalRelationships(r, did, methods, normal), did);
            lists.Ok? && MandatoryListsHold(lists.value, did + "#0") && ListPairs(again, did, lists.value).Ok?
  {
    hide NamesOnly, Encodes, NormalList, LookupLabels, ResolveAll;
    var id := did + "#0";
    var n := NormalRelationships(r, did, methods, normal);
    ListEntries(r, did);
    NormalListResolves(env, did, methods, normal, again, r.authentication);
    NormalListResolves(env, did, methods, normal, again, r.assertionMethod);
    NormalListResolves(env, did, methods, normal, again, r.capabilityInvocation);
    NormalListResolves(env, did, methods, normal, again, r.capabilityDelegation);
    NormalListResolves(env, did, methods, normal, again, r.keyAgreement);
    ResolvedNames(r.authentication, did, id);
    ResolvedNames(r.assertionMethod, did, id);
    ResolvedNames(r.capabilityInvocation, did, id);
    ResolvedNames(r.capabilityDelegation, did, id);
    ListEntries(n, did);
    ListPairsOk(again, did, ResolveLists(n, did).value);
  }

  lemma ResolvedNames(entries: seq<Relationship>, did: string, id: string)
    requires ResolveAll(entries, did).Ok? && id in ResolveAll(entries, did).value
    ensures Names(entries, did, id)
  {
    var i :| 0 <= i < |entries| && ResolveAll(entries, did).value[i] == id;
    assert entries[i].Referenced?;
  }

  // ------------------------------------------------------------------ the whole document

  /** Fragments that can all be written side by side. */
  predicate Namable(names: seq<string>) {
    NoDuplicates(names) && forall i :: 0 <= i < |names| ==> names[i] != "" && Scalar(names[i])
  }

  /** Every method is read back under a fragment that can be written, and no two under the same. */
  predicate MethodsNamable(env: Env, doc: Document)
    requires AcceptedMethods(env, doc)
  {
    Namable(WireFragments(env, doc.id.ToString(), doc.verificationMethod))
  }

  predicate KindsWritable(doc: Document) {
    forall i :: 0 <= i < |doc.service| ==> KindWritable(doc.service[i])
  }

  lemma NamableMoved(names: seq<string>, i: nat)
    requires i < |names|
    ensures Namable(MoveToFront(names, i)) <==> Namable(names)
  {
    var moved := MoveToFront(names, i);
    NoDuplicatesMoved(names, i);
    hide MoveToFront, NoDuplicates, Scalar;
    forall j | 0 <= j < |names|
      ensures moved[j] == names[SourceIndex(i, j)]
      ensures names[j] == moved[TargetIndex(i, j)]
    {
      MoveToFrontAt(names, i, j);
      MoveToFrontAt(names, i, TargetIndex(i, j));
    }
    if Namable(moved) {
      forall j | 0 <= j < |names|
        ensures names[j] != "" && Scalar(names[j])
      {
        assert names[j] == moved[TargetIndex(i, j)];
      }
    }
  }

  lemma NamableInOrder(env: Env, did: string, methods: seq<VerificationMethod>)
    requires forall k :: 0 <= k < |methods| ==> AcceptedMethod(env, did, methods[k])
    requires forall k :: 0 <= k < |methods| ==> AcceptedMethod(env, did, IdentityFirst(did, methods)[k])
    ensures Namable(WireFragments(env, did, IdentityFirst(did, methods))) <==> Namable(WireFragments(env, did, methods))
  {
    hide WireFragment, AcceptedMethod, MoveToFront, Namable, IdentityFirst;
    WireFragmentsInOrder(env, did, methods);
    if IndexOf(methods, did + "#0").Some? {
      NamableMoved(WireFragments(env, did, methods), IndexOf(methods, did + "#0").value);
    }
  }

  /** How the second encoding of the methods compares with the first. */
  predicate SameOutline(vms: seq<EncodedVm>, again: seq<EncodedVm>, names: seq<string>) {
    && |again| == |vms| == |names|
    && forall i :: 0 <= i < |vms| ==>
         && again[i].fragment == names[i] && again[i].controller == vms[i].controller
         && (vms[i].keyType in {0, 3} ==> again[i].keyBase64 == vms[i].keyBase64)
  }

  /** What becomes of one method that is read back and encoded again. */
  predicate EncodesAgain(env: Env, did: string, m: VerificationMethod, n: VerificationMethod, vm: EncodedVm)
    requires AcceptedMethod(env, did, m)
  {
    var fragment := WireFragment(env, did, m);
    var again := EncodeMethod(env, did, n, {});
    && (again.Ok? <==> fragment != "" && Scalar(fragment))
    && (again.Ok? ==>
          && again.value.fragment == fragment && again.value.controller == vm.controller
          && (vm.keyType in {0, 3} ==> again.value.keyBase64 == vm.keyBase64))
  }

  lemma NormalMethodsEncode(env: Env, did: string, methods: seq<VerificationMethod>, normal: seq<VerificationMethod>,
                            vms: seq<EncodedVm>)
    requires SoundCurves(env) && Encodes(env, did, methods, vms)
    requires forall k :: 0 <= k < |methods| ==> AcceptedMethod(env, did, methods[k])
    requires NormalMethods(env, did, methods) == Ok(normal)
    ensures forall i :: 0 <= i < |methods| ==> EncodesAgain(env, did, methods[i], normal[i], vms[i])
  {
    hide EncodeMethod, SoundCurves, NormalMethod, WireFragment, Scalar;
    forall i | 0 <= i < |methods|
      ensures EncodesAgain(env, did, methods[i], normal[i], vms[i])
    {
      assert NormalMethod(env, did, methods[i]) == Ok(normal[i]);
      NormalMethodEncodesIff(env, did, methods[i]);
    }
  }

  lemma SecondEncodingNamable(env: Env, did: string, methods: seq<VerificationMethod>,
                              normal: seq<VerificationMethod>, vms: seq<EncodedVm>)
    requires |methods| == |normal| == |vms|
    requires forall k :: 0 <= k < |methods| ==> AcceptedMethod(env, did, methods[k])
    requires forall i :: 0 <= i < |methods| ==> EncodesAgain(env, did, methods[i], normal[i], vms[i])
    requires EncodeMethods(env, did, normal, {}).Ok?
    ensures var again := EncodeMethods(env, did, normal, {}).value;
            var names := WireFragments(env, did, methods);
            Namable(names) && Encodes(env, did, normal, again) && SameOutline(vms, again, names)
  {
    hide EncodeMethod, AcceptedMethod, WireFragment, Scalar, EncodeMethods;
    EncodeMethodsFacts(env, did, normal, {});
    var again := EncodeMethods(env, did, normal, {}).value;
    var names := WireFragments(env, did, methods);
    forall i | 0 <= i < |methods|
      ensures again[i].fragment == names[i] && names[i] != "" && Scalar(names[i])
    {
      assert EncodesAgain(env, did, methods[i], normal[i], vms[i]);
    }
  }

  lemma NamableEncodesAgain(env: Env, did: string, methods: seq<VerificationMethod>, normal: seq<VerificationMethod>,
                            vms: seq<EncodedVm>)
    requires |methods| == |normal| == |vms|
    requires forall k :: 0 <= k < |methods| ==> AcceptedMethod(env, did, methods[k])
    requires forall i :: 0 <= i < |methods| ==> EncodesAgain(env, did, methods[i], normal[i], vms[i])
    requires Namable(WireFragments(env, did, methods))
    ensures EncodeMethods(env, did, normal, {}).Ok?
  {
    hide AcceptedMethod, WireFragment, Scalar, EncodeMethods;
    var names := WireFragments(env, did, methods);
    hide EncodeMethod;
    forall i | 0 <= i < |methods|
      ensures EncodeMethod(env, did, normal[i], {}).Ok?
              && EncodeMethod(env, did, normal[i], {}).value.fragment == names[i]
    {
      assert EncodesAgain(env, did, methods[i], normal[i], vms[i]);
    }
    var again := seq(|vms|, i requires 0 <= i < |vms| => EncodeMethod(env, did, normal[i], {}).value);
    hide EncodesAgain;
    EncodeMethodsOk(env, did, normal, again, {});
  }

  /** The methods read back encode again exactly when their fragments are namable. */
  lemma NormalMethodsIff(env: Env, did: string, methods: seq<VerificationMethod>, normal: seq<VerificationMethod>,
                         vms: seq<EncodedVm>)
    requires SoundCurves(env) && Encodes(env, did, methods, vms)
    requires forall k :: 0 <= k < |methods| ==> AcceptedMethod(env, did, methods[k])
    requires NormalMethods(env, did, methods) == Ok(normal)
    ensures var again := EncodeMethods(env, did, normal, {});
            var names := WireFragments(env, did, methods);
            && (again.Ok? <==> Namable(names))
            && (again.Ok? ==> Encodes(env, did, normal, again.value) && SameOutline(vms, again.value, names))
  {
    NormalMethodsEncode(env, did, methods, normal, vms);
    hide EncodeMethod, SoundCurves, WireFragment, WireFragments, EncodeMethods, EncodesAgain, Namable, AcceptedMethod,
      SameOutline;
    if EncodeMethods(env, did, normal, {}).Ok? {
      SecondEncodingNamable(env, did, methods, normal, vms);
    }
    if Namable(WireFragments(env, did, methods)) {
      NamableEncodesAgain(env, did, methods, normal, vms);
    }
  }

  lemma PlanVmsIff(env: Env, n: Document, vms: seq<EncodedVm>, names: seq<string>)
    requires DecodeIdentityKey(env, n.id).Ok? && n.propertySet == map[] && n.publicKey == []
    requires vms != [] && vms[0].keyType in {0, 3} && names != [] && names[0] == "0"
    requires vms[0].keyBase64 == Base64Url.Encode(DecodeIdentityKey(env, n.id).value)
    requires var again := EncodeMethods(env, n.id.ToString(), n.verificationMethod, {});
             again.Ok? ==> SameOutline(vms, again.value, names)
    ensures PlanVms(env, n).Ok? <==> EncodeMethods(env, n.id.ToString(), n.verificationMethod, {}).Ok?
    ensures PlanVms(env, n).Ok? ==> PlanVms(env, n) == EncodeMethods(env, n.id.ToString(), n.verificationMethod, {})
  {
    hide EncodeMethods, MoveToFront, Base64Url.Encode, Did.ToString;
    var again := EncodeMethods(env, n.id.ToString(), n.verificationMethod, {});
    if again.Ok? {
      FrontStays(again.value);
      assert IdentityPosition(again.value) == Some(0);
    }
  }

  /** The methods of the normal form encode again exactly when they are read back under namable fragments. */
  lemma NormalVmsIff(env: Env, doc: Document, vms: seq<EncodedVm>)
    requires SoundCurves(env) && PlanVms(env, doc) == Ok(vms) && AcceptedMethods(env, doc) && Normal(env, doc).Ok?
    ensures var n := Normal(env, doc).value;
            && (PlanVms(env, n).Ok? <==> MethodsNamable(env, doc))
            && (PlanVms(env, n).Ok? ==>
                  && Encodes(env, doc.id.ToString(), n.verificationMethod, PlanVms(env, n).value)
                  && |PlanVms(env, n).value| == |vms|
                  && PlanVms(env, n).value[0].controller == vms[0].controller)
  {
    hide EncodeMethod, Normal, SoundCurves, IdentityFirst, MoveToFront, WireFragment, Did.ToString, Typed, PlanVms,
      EncodeMethods, NormalMethods, Namable, Base64Url.Encode;
    var did, n := doc.id.ToString(), Normal(env, doc).value;
    var methods := IdentityFirst(did, doc.verificationMethod);
    IdentityFirstAccepted(env, doc);
    NormalParts(env, doc);
    AcceptedWhenEncoded(env, doc);
    IdentityKeyFirst(env, doc);
    NamableInOrder(env, did, doc.verificationMethod);
    NormalMethodsIff(env, did, methods, n.verificationMethod, vms);
    ZeroStays(env, doc);
    PlanVmsIff(env, n, vms, WireFragments(env, did, methods));
  }

  /** The identity method is never renamed. */
  lemma ZeroStays(env: Env, doc: Document)
    requires PlanVms(env, doc).Ok? && AcceptedMethods(env, doc)
    ensures var did := doc.id.ToString();
            var methods := IdentityFirst(did, doc.verificationMethod);
            && methods != [] && methods[0].id == did + "#0"
            && AcceptedMethod(env, did, methods[0]) && WireFragment(env, did, methods[0]) == "0"
  {
    hide IdentityFirst, PlanVms, EncodeMethod;
    var did := doc.id.ToString();
    hide Did.ToString;
    AcceptedWhenEncoded(env, doc);
    var m := IdentityFirst(did, doc.verificationMethod)[0];
    EncodedId(env, did, m);
    assert did + "#" + "0" == did + "#0";
    assert (did + "#0")[|did| + 1..] == "0";
  }

  lemma FrontStays<T>(items: seq<T>)
    requires items != []
    ensures MoveToFront(items, 0) == items
  {
  }

  lemma ControllerStringsKept(c: Option<OneOrMany>, who: string)
    requires ControllerStrings(c).Ok?
    ensures ControllerStrings(NormalController(c)).Ok?
    ensures ControllerStrings(NormalController(c)).value.Some? <==> ControllerStrings(c).value.Some?
    ensures ControllerStrings(c).value.Some? && who in ControllerStrings(c).value.value ==>
              who in ControllerStrings(NormalController(c)).value.value
  {
  }

  lemma NormalRelationshipsPlan(env: Env, doc: Document)
    requires MakePlan(env, doc).Ok? && AcceptedMethods(env, doc) && Normal(env, doc).Ok?
    requires PlanVms(env, Normal(env, doc).value).Ok?
    requires Encodes(env, doc.id.ToString(), Normal(env, doc).value.verificationMethod,
                     PlanVms(env, Normal(env, doc).value).value)
    ensures var did, n := doc.id.ToString(), Normal(env, doc).value;
            var lists := ResolveLists(n.relationships, did);
            && lists.Ok? && MandatoryListsHold(lists.value, did + "#0")
            && ListPairs(PlanVms(env, n).value, did, lists.value).Ok?
  {
    hide MakePlan, Normal, AcceptedMethods, PlanVms, IdentityFirst, Encodes, Did.ToString, AllNamesOnly, ResolveLists,
      ListPairs, MandatoryListsHold, NormalRelationships, Typed, WireFragment;
    var did, n := doc.id.ToString(), Normal(env, doc).value;
    PlanFacts(env, doc);
    EncodedRelationships(env, doc);
    IdentityFirstAccepted(env, doc);
    NormalParts(env, doc);
    NormalIds(env, doc);
    ZeroStays(env, doc);
    assert did + "#" + "0" == did + "#0";
    NormalListsPlan(env, did, IdentityFirst(did, doc.verificationMethod), n.verificationMethod,
                    PlanVms(env, n).value, doc.relationships);
  }

  /** What the encoder asks of a document, part by part. */
  lemma MakePlanOkIff(env: Env, doc: Document)
    ensures MakePlan(env, doc).Ok?
            <==> var did := doc.id.ToString();
                 var vms, controllers := PlanVms(env, doc), ControllerStrings(doc.controller);
                 var lists := ResolveLists(doc.relationships, did);
                 && vms.Ok? && controllers.Ok?
                 && (vms.value[0].controller == did
                     || (controllers.value.Some? && vms.value[0].controller in controllers.value.value))
                 && AllScalar(doc.alsoKnownAs) && PlanServices(doc.service, did, {}).Ok?
                 && lists.Ok? && MandatoryListsHold(lists.value, did + "#0")
                    && ListPairs(vms.value, did, lists.value).Ok?
  {
    hide PlanVms, ControllerStrings, AllScalar, PlanServices, ResolveLists, MandatoryListsHold, ListPairs, Did.ToString;
  }

  /** The normal form of a document is itself accepted by the encoder if and only if its methods are read
      back under writable, distinct fragments and no service property called `type` is anything but one
      non-empty string. */
  lemma NormalEncodesIff(env: Env, doc: Document)
    requires SoundCurves(env) && MakePlan(env, doc).Ok? && AcceptedMethods(env, doc) && Normal(env, doc).Ok?
    ensures MakePlan(env, Normal(env, doc).value).Ok? <==> MethodsNamable(env, doc) && KindsWritable(doc)
  {
    hide Normal, SoundCurves, AcceptedMethods, PlanVms, PlanServices, ResolveLists, ListPairs, ControllerStrings,
      AllScalar, MandatoryListsHold, IdentityFirst, NormalController, NormalServices, NormalRelationships,
      NormalMethods, Did.ToString, MethodsNamable, KindWritable, Typed, Encodes, MakePlan;
    var did, n := doc.id.ToString(), Normal(env, doc).value;
    var plan := MakePlan(env, doc).value;
    MakePlanOkIff(env, doc);
    MakePlanOkIff(env, n);
    PlanFacts(env, doc);
    IdentityFirstAccepted(env, doc);
    NormalParts(env, doc);
    NormalVmsIff(env, doc, plan.vms);
    ControllerStringsKept(doc.controller, plan.vms[0].controller);
    NormalServicesEncodeIff(doc.service, n.service, did, {});
    if PlanVms(env, n).Ok? {
      NormalRelationshipsPlan(env, doc);
    }
  }

  // ------------------------------------------------------------------ the second packet

  predicate SameRecordNames(a: seq<NamedText>, b: seq<NamedText>) {
    |a| == |b| && forall i :: 0 <= i < |a| ==> a[i].name == b[i].name
  }

  lemma RecordNamesAppend(a: seq<NamedText>, b: seq<NamedText>, c: seq<NamedText>, d: seq<NamedText>)
    requires SameRecordNames(a, c) && SameRecordNames(b, d)
    ensures SameRecordNames(a + b, c + d)
  {
  }

  /** Two plans of the same outline write records of the same names. */
  lemma SameNames(env: Env, p: Plan, q: Plan, doc: Document, other: Document, types: seq<u64>)
    requires |p.vms| == |q.vms| && |p.services| == |q.services| && doc.id == other.id
    requires (p.aka == [] <==> q.aka == []) && (p.controllers.None? <==> q.controllers.None?)
    ensures AllNamed(env, PlanTexts(p, doc, types)) <==> AllNamed(env, PlanTexts(q, other, types))
  {
    hide Join, PairsText, RootPairs, VmTexts, ServiceTexts, TypeTexts, Did.ToString;
    var did, root := doc.id.ToString(), "_did." + doc.id.id + ".";
    var a, c := AkaTexts(p.aka), AkaTexts(q.aka);
    var b, d := ControllerTexts(p.controllers), ControllerTexts(q.controllers);
    RecordNamesAppend(a, b, c, d);
    hide AkaTexts, ControllerTexts;
    SameVmNames(p.vms, q.vms, did, 0);
    a, c, b, d := a + b, c + d, VmTexts(p.vms, did, 0), VmTexts(q.vms, did, 0);
    RecordNamesAppend(a, b, c, d);
    SameServiceNames(p.services, q.services, 0);
    a, c, b, d := a + b, c + d, ServiceTexts(p.services, 0), ServiceTexts(q.services, 0);
    RecordNamesAppend(a, b, c, d);
    a, b := a + b, [NamedText(root, PairsText(RootPairs(|p.vms|, p.listPairs, |p.services|)))];
    c, d := c + d, [NamedText(root, PairsText(RootPairs(|q.vms|, q.listPairs, |q.services|)))];
    RecordNamesAppend(a, b, c, d);
    RecordNamesAppend(a + b, TypeTexts(types), c + d, TypeTexts(types));
  }

  lemma {:induction false} SameVmNames(vms: seq<EncodedVm>, again: seq<EncodedVm>, did: string, start: nat)
    requires |vms| == |again|
    ensures SameRecordNames(VmTexts(vms, did, start), VmTexts(again, did, start))
    decreases vms
  {
    hide VmLabel, PairsText, VmPairs;
    if vms != [] {
      SameVmNames(vms[1..], again[1..], did, start + 1);
    }
  }

  lemma {:induction false} SameServiceNames(services: seq<ServiceParts>, again: seq<ServiceParts>, start: nat)
    requires |services| == |again|
    ensures SameRecordNames(ServiceTexts(services, start), ServiceTexts(again, start))
    decreases services
  {
    hide ServiceLabel, PairsText, ServicePairs;
    if services != [] {
      SameServiceNames(services[1..], again[1..], start + 1);
    }
  }

  lemma {:induction false} ServiceCount(services: seq<Service>, did: string, seen: set<string>)
    requires PlanServices(services, did, seen).Ok?
    ensures |PlanServices(services, did, seen).value| == |services|
    decreases services
  {
    hide PlanService;
    if services != [] {
      ServiceCount(services[1..], did, seen + {services[0].id});
    }
  }

  /** The second packet has records of the same names as the first. */
  lemma SecondPacketNamed(env: Env, doc: Document, types: seq<u64>)
    requires SoundCurves(env) && MakePlan(env, doc).Ok? && AcceptedMethods(env, doc) && Normal(env, doc).Ok?
    requires MakePlan(env, Normal(env, doc).value).Ok?
    ensures AllNamed(env, PlanTexts(MakePlan(env, doc).value, doc, types))
            <==> AllNamed(env, PlanTexts(MakePlan(env, Normal(env, doc).value).value, Normal(env, doc).value, types))
  {
    hide Normal, SoundCurves, AcceptedMethods, MakePlan, PlanVms, PlanServices, ResolveLists, ListPairs, AllNamed,
      ControllerStrings, NormalController, NormalServices, NormalRelationships, PlanTexts, IdentityFirst, Typed,
      NormalMethods, MethodsNamable, Did.ToString;
    var did, n := doc.id.ToString(), Normal(env, doc).value;
    var p, q := MakePlan(env, doc).value, MakePlan(env, n).value;
    PlanFacts(env, doc);
    PlanFacts(env, n);
    IdentityFirstAccepted(env, doc);
    NormalParts(env, doc);
    NormalVmsIff(env, doc, p.vms);
    ControllerStringsKept(doc.controller, "");
    ServiceCount(doc.service, did, {});
    ServiceCount(n.service, did, {});
    SameNames(env, p, q, doc, n, types);
  }

  // ------------------------------------------------------------------ the theorems

  /** A document that was read back can be published again if and only if its methods were read back under
      writable, distinct fragments and no service property called `type` is anything but one non-empty
      string. */
  lemma RepublishableIff(env: Env, doc: Document, types: seq<u64>, gateways: seq<Gateway>)
    requires SoundCurves(env) && EncodeAnswers(env, doc, types, gateways).Ok?
    requires DecodeAnswers(env, doc.id, EncodeAnswers(env, doc, types, gateways).value).Ok?
    ensures AcceptedMethods(env, doc)
    ensures var r := DecodeAnswers(env, doc.id, EncodeAnswers(env, doc, types, gateways).value).value;
            EncodeAnswers(env, r.document, types, gateways).Ok? <==> MethodsNamable(env, doc) && KindsWritable(doc)
  {
    hide MakePlan, DecodeAnswers, Normal, AcceptedMethods, SoundCurves, MethodsNamable, KindsWritable, TextAnswers,
      NsAnswers, NsTargets, PlanTexts, AllNamed, AllHosts, TypesRead;
    EncodeThenDecode(env, doc, types, gateways);
    NormalEncodesIff(env, doc);
    if MakePlan(env, Normal(env, doc).value).Ok? {
      SecondPacketNamed(env, doc, types);
    }
  }

  /** A property that takes the place of the endpoint is a list of several strings. */
  predicate EndpointListed(s: Service) {
    "serviceEndpoint" in s.properties ==>
      var items := PropertyStrings(s.properties["serviceEndpoint"]);
      items.Some? && |items.value| >= 2
  }

  predicate EndpointsListed(doc: Document) {
    forall i :: 0 <= i < |doc.service| ==> EndpointListed(doc.service[i])
  }

  lemma NormalEndpointIff(s: Service, did: string)
    requires PlanService(s, did).Ok? && NormalService(s).Ok?
    ensures EndpointIsList(NormalService(s).value) <==> EndpointListed(s)
  {
    hide BTree.InOrder, PlanExtras, PropertyStrings, ArrayStrings, EndpointStrings;
    ExtrasWritten(s.properties);
    if "serviceEndpoint" in s.properties {
      assert ExtraWritten(s.properties, "serviceEndpoint");
    }
  }

  lemma NormalEndpointsIff(env: Env, doc: Document)
    requires MakePlan(env, doc).Ok? && AcceptedMethods(env, doc) && Normal(env, doc).Ok?
    ensures EndpointsAreLists(Normal(env, doc).value) <==> EndpointsListed(doc)
  {
    hide Normal, MakePlan, PlanVms, PlanServices, PlanService, NormalService, AcceptedMethods, IdentityFirst, Typed,
      NormalMethods, NormalRelationships, NormalController, EndpointIsList, EndpointListed, Did.ToString;
    PlanFacts(env, doc);
    IdentityFirstAccepted(env, doc);
    NormalParts(env, doc);
    PlannedEndpoints(doc.service, doc.id.ToString(), {});
    forall i | 0 <= i < |doc.service|
      ensures EndpointIsList(Normal(env, doc).value.service[i]) <==> EndpointListed(doc.service[i])
    {
      NormalEndpointIff(doc.service[i], doc.id.ToString());
    }
  }

  /** Exactly when decode after encode is idempotent: what was read back can be published again and reads
      back unchanged if and only if its methods were read back under writable, distinct fragments, no
      service property called `type` is anything but one non-empty string, and none called
      `serviceEndpoint` is a single string. */
  lemma DecodeAfterEncodeIdempotent(env: Env, doc: Document, types: seq<u64>, gateways: seq<Gateway>)
    requires SoundCurves(env) && EncodeAnswers(env, doc, types, gateways).Ok?
    requires DecodeAnswers(env, doc.id, EncodeAnswers(env, doc, types, gateways).value).Ok?
    ensures AcceptedMethods(env, doc)
    ensures var r := DecodeAnswers(env, doc.id, EncodeAnswers(env, doc, types, gateways).value).value;
            (&& EncodeAnswers(env, r.document, types, gateways).Ok?
             && DecodeAnswers(env, doc.id, EncodeAnswers(env, r.document, types, gateways).value) == Ok(r))
            <==> MethodsNamable(env, doc) && KindsWritable(doc) && EndpointsListed(doc)
  {
    hide EncodeAnswers, MakePlan, DecodeAnswers, Normal, AcceptedMethods, SoundCurves, MethodsNamable, KindsWritable,
      EndpointsListed, EndpointsAreLists, IdentityLeads;
    var answers := EncodeAnswers(env, doc, types, gateways).value;
    RepublishableIff(env, doc, types, gateways);
    EncodedPlan(env, doc, types, gateways);
    EncodeThenDecode(env, doc, types, gateways);
    var r := DecodeAnswers(env, doc.id, answers).value;
    assert r.types.GetOr([]) == types;
    if EncodeAnswers(env, r.document, types, gateways).Ok? {
      PlanFacts(env, doc);
      NormalLeadsWithIdentity(env, doc);
      NormalEndpointsIff(env, doc);
      DecoderFixpoint(env, doc.id, answers, gateways);
    }
  }

  predicate AllCanonical(env: Env, doc: Document)
    requires AcceptedMethods(env, doc)
  {
    forall m <- doc.verificationMethod :: CanonicalMethod(env, doc.id.ToString(), m)
  }

  lemma CanonicalNamable(env: Env, doc: Document)
    requires MakePlan(env, doc).Ok? && AcceptedMethods(env, doc)
    requires AllCanonical(env, doc)
    ensures MethodsNamable(env, doc)
  {
    hide MakePlan, CanonicalMethod, IdentityFirst, Did.ToString, WireFragment, MoveToFront, Scalar;
    var did := doc.id.ToString();
    var methods := doc.verificationMethod;
    PlanFacts(env, doc);
    var vms := EncodeMethods(env, did, methods, {}).value;
    hide PlanVms;
    EncodeMethodsFacts(env, did, methods, {});
    var names := WireFragments(env, did, methods);
    forall i | 0 <= i < |methods|
      ensures names[i] == vms[i].fragment && names[i] != "" && Scalar(names[i])
    {
      assert AcceptedMethod(env, did, methods[i]) && methods[i] in methods;
      CanonicalNormal(env, did, methods[i]);
      NormalId(env, did, methods[i]);
      EncodedId(env, did, methods[i]);
      SameFragment(did, names[i], vms[i].fragment);
    }
  }

  /** A document with canonical methods is republished unchanged if and only if no service property called
      `type` or `serviceEndpoint` stands in the way. */
  lemma CanonicalIdempotent(env: Env, doc: Document, types: seq<u64>, gateways: seq<Gateway>)
    requires SoundCurves(env) && EncodeAnswers(env, doc, types, gateways).Ok? && AcceptedMethods(env, doc)
    requires AllCanonical(env, doc)
    requires DecodeAnswers(env, doc.id, EncodeAnswers(env, doc, types, gateways).value).Ok?
    ensures var r := DecodeAnswers(env, doc.id, EncodeAnswers(env, doc, types, gateways).value).value;
            (&& EncodeAnswers(env, r.document, types, gateways).Ok?
             && DecodeAnswers(env, doc.id, EncodeAnswers(env, r.document, types, gateways).value) == Ok(r))
            <==> KindsWritable(doc) && EndpointsListed(doc)
  {
    hide EncodeAnswers, MakePlan, DecodeAnswers, SoundCurves, MethodsNamable, KindsWritable, EndpointsListed,
      CanonicalMethod;
    EncodedPlan(env, doc, types, gateways);
    CanonicalNamable(env, doc);
    DecodeAfterEncodeIdempotent(env, doc, types, gateways);
  }
}

/** The packet of a document, record by record: which records there are, in which order and under which names, and
    what each of them says. */
module DhtWire {
  import opened Wrappers
  import opened Text
  import opened DidDocument
  import opened DhtRecords
  import opened DhtEncode
  import opened DhtDecode
  import opened DhtNormal
  import opened DhtRoundTrip
  import opened DhtRelationships
  import opened DhtTheorems
  import opened DhtDocuments
  import Base64Url
  import BTree

  // ------------------------------------------------------------------ method records

  /** The curve that a key names, or the family if it names none. */
  predicate CurveIs(m: KeyMaterial, curve: string) {
    m.crv == Some(curve) || (m.crv == None && m.kty == Some(curve))
  }

  predicate OkpSpelled(m: KeyMaterial, k: string) {
    m.x.Some? && |m.x.value| == 32 && k == Base64Url.Encode(m.x.value)
  }

  /** A compressed point: two or three by the parity of `y`, then `x`. */
  predicate PointSpelled(m: KeyMaterial, k: string) {
    && m.x.Some? && m.y.Some? && |m.x.value| == 32 && |m.y.value| == 32
    && k == Base64Url.Encode([2 + m.y.value[31] % 2] + m.x.value)
  }

  /** The registered type and the text of a key. */
  predicate KeySpelled(m: KeyMaterial, t: string, k: string) {
    || (t == "0" && CurveIs(m, "Ed25519") && OkpSpelled(m, k))
    || (t == "1" && CurveIs(m, "secp256k1") && PointSpelled(m, k))
    || (t == "2" && (CurveIs(m, "P-256") || CurveIs(m, "secp256r1")) && PointSpelled(m, k))
    || (t == "3" && CurveIs(m, "X25519") && OkpSpelled(m, k))
  }

  /** The algorithm that goes without saying. */
  function UsualAlgorithm(t: string): string {
    if t == "0" then "EdDSA" else if t == "1" then "ES256K" else if t == "2" then "ES256" else "ECDH-ES+A256KW"
  }

  predicate Says(values: map<string, string>, name: string, value: string) {
    name in values && values[name] == value
  }

  /** The record of a method: its key, and its id, algorithm and controller where they cannot be inferred. */
  predicate MethodSpelled(env: Env, did: string, m: VerificationMethod, values: map<string, string>) {
    && "publicKeyJwk" in m.properties && m.properties["publicKeyJwk"].KeyProperty?
    && var jwk := m.properties["publicKeyJwk"].jwk;
    && values.Keys <= {"id", "t", "k", "a", "c"}
    && "t" in values && "k" in values && KeySpelled(jwk.material, values["t"], values["k"])
    && ("id" in values <==> m.id != did + "#0" && !NamedSo(env, did, jwk, m.id))
    && ("id" in values ==> did + "#" + values["id"] == m.id)
    && ("a" in values <==> jwk.alg.Some? && jwk.alg.value != UsualAlgorithm(values["t"]))
    && ("a" in values ==> jwk.alg == Some(values["a"]))
    && ("c" in values <==> m.controller != did)
    && ("c" in values ==> m.controller == values["c"])
  }

  /** The id is the DID with the key's thumbprint. */
  predicate NamedSo(env: Env, did: string, jwk: Jwk, id: string) {
    var thumbprint := env.thumbprint(jwk.material, jwk.rest);
    thumbprint.Some? && id == did + "#" + thumbprint.value
  }

  lemma KeyIsSpelled(m: KeyMaterial)
    requires ToWireKey(m).Ok?
    ensures var wire := ToWireKey(m).value;
            && KeySpelled(m, Decimal(wire.keyType), Base64Url.Encode(wire.raw))
            && UsualAlgorithm(Decimal(wire.keyType)) == DefaultAlgorithm(wire.keyType)
  {
    hide Base64Url.Encode;
    assert Decimal(0) == "0" && Decimal(1) == "1" && Decimal(2) == "2" && Decimal(3) == "3";
  }

  lemma EncodedParts(env: Env, did: string, m: VerificationMethod)
    requires AcceptedMethod(env, did, m)
    ensures var vm, jwk := EncodeMethod(env, did, m, {}).value, KeyOf(m);
            && m.id == did + "#" + vm.fragment
            && ToWireKey(jwk.material) == Ok(WireKey(vm.keyType, ToWireKey(jwk.material).value.raw))
            && vm.keyBase64 == Base64Url.Encode(ToWireKey(jwk.material).value.raw)
            && env.thumbprint(jwk.material, jwk.rest) == Some(vm.thumbprint)
            && vm.algorithm == (if jwk.alg == Some(DefaultAlgorithm(vm.keyType)) then None else jwk.alg)
            && vm.controller == m.controller
  {
    hide Base64Url.Encode, ToWireKey, DefaultAlgorithm, Scalar;
  }

  lemma SameId(did: string, a: string, b: string)
    ensures did + "#" + a == did + "#" + b <==> a == b
  {
    assert (did + "#" + a)[|did| + 1..] == a && (did + "#" + b)[|did| + 1..] == b;
  }

  lemma VmKeys(vm: EncodedVm, did: string)
    ensures PairsMap(VmPairs(vm, did)).Keys <= {"id", "t", "k", "a", "c"}
  {
    hide PairsMap, VmPairs, Decimal;
    VmPairsMapIs(vm, did);
  }

  lemma MethodIsSpelled(env: Env, did: string, m: VerificationMethod)
    requires AcceptedMethod(env, did, m)
    ensures MethodSpelled(env, did, m, Properties(PairsText(VmPairs(EncodeMethod(env, did, m, {}).value, did))))
  {
    hide Properties, PairsText, VmPairs, PairsMap, Base64Url.Encode, ToWireKey, KeySpelled, Decimal, DefaultAlgorithm,
      UsualAlgorithm;
    var vm := EncodeMethod(env, did, m, {}).value;
    VmPairsSafe(env, did, m, {});
    PropertiesOfPairs(VmPairs(vm, did));
    VmPairsMap(vm, did);
    VmKeys(vm, did);
    KeyIsSpelled(KeyOf(m).material);
    EncodedParts(env, did, m);
    hide EncodeMethod;
    SameId(did, vm.fragment, "0");
    SameId(did, vm.fragment, vm.thumbprint);
    assert did + "#" + "0" == did + "#0";
  }

  // ------------------------------------------------------------------ service records

  predicate StringsAre(j: Json, items: seq<string>) {
    j.JArray? && |j.items| == |items| && forall i :: 0 <= i < |items| ==> j.items[i] == JString(items[i])
  }

  /** A property's text: its string, or its strings joined with commas. */
  predicate PropertySpelled(j: Json, text: string) {
    j == JString(text) || (j.JArray? && StringsAre(j, Split(text, ',')))
  }

  /** The record of a service: its id, type and endpoints, and every further property under its own name. */
  predicate ServiceSpelled(did: string, s: Service, values: map<string, string>) {
    && values.Keys == {"id", "t", "se"} + s.properties.Keys && s.properties.Keys !! {"id", "t", "se"}
    && s.id == did + "#" + values["id"] && s.kind == One(values["t"])
    && s.endpoint.Some? && PropertySpelled(s.endpoint.value, values["se"])
    && forall k :: k in s.properties ==> PropertySpelled(s.properties[k], values[k])
  }

  lemma ItemsSpelled(j: Json, items: seq<string>)
    requires items != [] && AllScalar(items)
    requires (j.JString? && items == [j.s]) || (j.JArray? && ArrayStrings(j.items) == Some(items))
    ensures PropertySpelled(j, Join(items, ','))
  {
    CommaListSplits(items);
  }

  lemma ServiceIsSpelled(s: Service, did: string)
    requires PlanService(s, did).Ok?
    ensures ServiceSpelled(did, s, Properties(PairsText(ServicePairs(PlanService(s, did).value))))
  {
    hide Join, PairsMap, PairsText, Properties, ServicePairs, PlanExtras, BTree.InOrder, PropertySpelled, Scalar;
    var p := PlanService(s, did).value;
    var names := BTree.InOrder(s.properties.Keys);
    var extras := PairsMap(ExtraPairs(p.extras));
    ExtrasPlanned(s.properties, names);
    ServicePairsSafe(s, did);
    ServicePairsNonEmpty(p);
    PropertiesOfPairs(ServicePairs(p));
    ServicePairsMap(p);
    var values := PairsMap(ServicePairs(p));
    assert values.Keys == {"id", "t", "se"} + s.properties.Keys by {
      assert values.Keys == {"id", "t", "se"} + (values - {"id", "t", "se"}).Keys;
      assert extras.Keys == s.properties.Keys;
    }
    ItemsSpelled(s.endpoint.value, p.endpoints);
    forall k | k in s.properties
      ensures PropertySpelled(s.properties[k], values[k])
    {
      assert ExtraSpelled(s.properties, k, extras[k]);
      assert values[k] == (values - {"id", "t", "se"})[k];
      ItemsSpelled(s.properties[k], PropertyStrings(s.properties[k]).value);
    }
  }

  // ------------------------------------------------------------------ the root record

  function Numbered(letter: string, count: nat): seq<string> {
    seq(count, i requires 0 <= i < count => letter + Decimal(i))
  }

  /** The entry stands for the method with this id. */
  predicate PointsAt(entry: Relationship, did: string, id: string) {
    || entry == Referenced(Absolute(id))
    || (entry.Referenced? && entry.reference.Relative? && did + entry.reference.suffix == id)
  }

  predicate LabelSpelled(entry: Relationship, did: string, methods: seq<VerificationMethod>, text: string) {
    exists j :: 0 <= j < |methods| && PointsAt(entry, did, methods[j].id) && text == "k" + Decimal(j)
  }

  /** A relationship list: left out when it is empty, else the labels of the methods it names, in order. */
  predicate ListSpelledAs(entries: seq<Relationship>, did: string, methods: seq<VerificationMethod>,
                          values: map<string, string>, code: string) {
    if entries == [] then code !in values
    else
      && code in values && |Split(values[code], ',')| == |entries|
      && forall i :: 0 <= i < |entries| ==> LabelSpelled(entries[i], did, methods, Split(values[code], ',')[i])
  }

  /** The root record: the version, the labels of all methods and services, and the five lists. */
  predicate RootSpelled(r: Relationships, did: string, methods: seq<VerificationMethod>, services: nat,
                        values: map<string, string>) {
    && values.Keys <= {"v", "vm", "svc", "auth", "asm", "inv", "del", "agm"}
    && Says(values, "v", "0")
    && "vm" in values && Split(values["vm"], ',') == Numbered("k", |methods|)
    && ("svc" in values <==> services > 0)
    && ("svc" in values ==> Split(values["svc"], ',') == Numbered("s", services))
    && ListSpelledAs(r.authentication, did, methods, values, "auth")
    && ListSpelledAs(r.assertionMethod, did, methods, values, "asm")
    && ListSpelledAs(r.capabilityInvocation, did, methods, values, "inv")
    && ListSpelledAs(r.capabilityDelegation, did, methods, values, "del")
    && ListSpelledAs(r.keyAgreement, did, methods, values, "agm")
  }

  lemma NumberedLabels(count: nat)
    ensures Labels(count, VmLabel) == Numbered("k", count) && Labels(count, ServiceLabel) == Numbered("s", count)
    ensures AllScalar(Numbered("k", count)) && AllScalar(Numbered("s", count))
  {
    hide Decimal, Scalar;
    forall i | 0 <= i < count
      ensures Scalar("k" + Decimal(i)) && Scalar("s" + Decimal(i))
      ensures Labels(count, VmLabel)[i] == "k" + Decimal(i) && Labels(count, ServiceLabel)[i] == "s" + Decimal(i)
    {
      DecimalScalar(i);
      LabelScalar("k", i);
      LabelScalar("s", i);
      LabelAt(count, i);
    }
  }

  lemma LabelAt(count: nat, i: nat)
    requires i < count
    ensures Labels(count, VmLabel)[i] == "k" + Decimal(i) && Labels(count, ServiceLabel)[i] == "s" + Decimal(i)
  {
    assert Labels(count, VmLabel)[i] == VmLabel(i) && Labels(count, ServiceLabel)[i] == ServiceLabel(i);
  }

  lemma RootMapSum(vmCount: nat, lists: seq<Pair>, serviceCount: nat)
    ensures PairsMap(RootPairs(vmCount, lists, serviceCount))
            == map["v" := "0"] + map["vm" := Join(Labels(vmCount, VmLabel), ',')] + PairsMap(lists)
               + (if serviceCount > 0 then map["svc" := Join(Labels(serviceCount, ServiceLabel), ',')] else map[])
  {
    hide PairsMap, Join, Labels;
    var v, vm := Pair("v", "0"), Pair("vm", Join(Labels(vmCount, VmLabel), ','));
    var svc := OptionalPair(serviceCount > 0, "svc", Join(Labels(serviceCount, ServiceLabel), ','));
    assert RootPairs(vmCount, lists, serviceCount) == [v] + [vm] + lists + svc;
    PairsMapAppend([v], [vm]);
    PairsMapAppend([v] + [vm], lists);
    PairsMapAppend([v] + [vm] + lists, svc);
    PairsMapOne(v);
    PairsMapOne(vm);
    OptionalPairMap(serviceCount > 0, "svc", Join(Labels(serviceCount, ServiceLabel), ','));
  }

  lemma RootMapIs(vmCount: nat, lists: seq<Pair>, serviceCount: nat)
    requires PairsMap(lists).Keys !! {"v", "vm", "svc"}
    ensures var values := PairsMap(RootPairs(vmCount, lists, serviceCount));
            && values.Keys == PairsMap(lists).Keys + {"v", "vm"} + (if serviceCount > 0 then {"svc"} else {})
            && Says(values, "v", "0") && Says(values, "vm", Join(Labels(vmCount, VmLabel), ','))
            && (serviceCount > 0 ==> Says(values, "svc", Join(Labels(serviceCount, ServiceLabel), ',')))
            && forall k :: k in PairsMap(lists) ==> Says(values, k, PairsMap(lists)[k])
  {
    hide PairsMap, Join, Labels, RootPairs;
    RootMapSum(vmCount, lists, serviceCount);
  }

  lemma {:induction false} LabelFound(vms: seq<EncodedVm>, did: string, id: string, start: nat) returns (j: nat)
    requires LookupLabel(vms, did, id, start).Some?
    ensures j < |vms| && did + "#" + vms[j].fragment == id
    ensures LookupLabel(vms, did, id, start) == Some(VmLabel(start + j))
    decreases vms
  {
    hide VmLabel;
    if did + "#" + vms[0].fragment == id {
      j := 0;
    } else {
      var i := LabelFound(vms[1..], did, id, start + 1);
      j := i + 1;
    }
  }

  lemma ListIsSpelled(env: Env, did: string, methods: seq<VerificationMethod>, vms: seq<EncodedVm>,
                      entries: seq<Relationship>, list: ResolvedList, pairs: map<string, string>,
                      values: map<string, string>)
    requires Encodes(env, did, methods, vms) && ResolveAll(entries, did) == Ok(list.ids)
    requires ListSpelled(vms, did, list, pairs)
    requires Get(values, list.code) == Get(pairs, list.code)
    ensures ListSpelledAs(entries, did, methods, values, list.code)
  {
    hide EncodeMethod, Join, LookupLabel, VmLabel, Split, Scalar, LabelSpelled;
    if entries != [] {
      var labels := LookupLabels(vms, did, list.ids).value;
      LookupLabelsScalar(vms, did, list.ids);
      CommaListSplits(labels);
      forall i | 0 <= i < |entries|
        ensures LabelSpelled(entries[i], did, methods, labels[i])
      {
        var j := LabelFound(vms, did, list.ids[i], 0);
        assert EncodeMethod(env, did, methods[j], {}) == Ok(vms[j]);
        EncodedId(env, did, methods[j]);
        OneLabel(entries[i], did, methods, labels[i], j);
      }
    }
  }

  lemma OneLabel(entry: Relationship, did: string, methods: seq<VerificationMethod>, text: string, j: nat)
    requires j < |methods| && entry.Referenced? && entry.reference.Resolve(did) == methods[j].id && text == VmLabel(j)
    ensures LabelSpelled(entry, did, methods, text)
  {
    assert PointsAt(entry, did, methods[j].id);
  }

  lemma RootIsSpelled(env: Env, did: string, methods: seq<VerificationMethod>, vms: seq<EncodedVm>, r: Relationships,
                      services: nat)
    requires Encodes(env, did, methods, vms) && vms != []
    requires ResolveLists(r, did).Ok? && ListPairs(vms, did, ResolveLists(r, did).value).Ok?
    ensures var pairs := ListPairs(vms, did, ResolveLists(r, did).value).value;
            RootSpelled(r, did, methods, services, Properties(PairsText(RootPairs(|vms|, pairs, services))))
  {
    hide Encodes, PairsMap, PairsText, Properties, RootPairs, ResolveAll, ResolveLists, ListPairs, ListSpelled,
      DistinctCodes, SafePairs, ListSpelledAs, Join, Split, Labels, Numbered, Scalar;
    var lists := ResolveLists(r, did).value;
    var pairs := ListPairs(vms, did, lists).value;
    ListEntries(r, did);
    ListCodes(r, did);
    ListPairsSpell(vms, did, lists);
    var spelled := PairsMap(pairs);
    assert Codes(lists) == {"auth", "asm", "inv", "del", "agm"} by {
      assert lists == [lists[0], lists[1], lists[2], lists[3], lists[4]];
    }
    RootPairsSafe(|vms|, pairs, services);
    RootNotEmpty(|vms|, pairs, services);
    PropertiesOfPairs(RootPairs(|vms|, pairs, services));
    RootMapIs(|vms|, pairs, services);
    var values := PairsMap(RootPairs(|vms|, pairs, services));
    assert forall code <- Codes(lists) :: Get(values, code) == Get(spelled, code);
    NumberedLabels(|vms|);
    NumberedLabels(services);
    SplitNumbered("k", |vms|);
    if services > 0 {
      SplitNumbered("s", services);
    }
    EncodesLength(env, did, methods, vms);
    ListIsSpelled(env, did, methods, vms, r.authentication, lists[0], spelled, values);
    ListIsSpelled(env, did, methods, vms, r.assertionMethod, lists[1], spelled, values);
    ListIsSpelled(env, did, methods, vms, r.capabilityInvocation, lists[2], spelled, values);
    ListIsSpelled(env, did, methods, vms, r.capabilityDelegation, lists[3], spelled, values);
    ListIsSpelled(env, did, methods, vms, r.keyAgreement, lists[4], spelled, values);
  }

  lemma EncodesLength(env: Env, did: string, methods: seq<VerificationMethod>, vms: seq<EncodedVm>)
    requires Encodes(env, did, methods, vms)
    ensures |methods| == |vms|
  {
  }

  lemma RootNotEmpty(vmCount: nat, lists: seq<Pair>, serviceCount: nat)
    ensures RootPairs(vmCount, lists, serviceCount) != []
  {
  }

  lemma SplitNumbered(letter: string, count: nat)
    requires count > 0 && AllScalar(Numbered(letter, count))
    ensures Split(Join(Numbered(letter, count), ','), ',') == Numbered(letter, count)
  {
    hide Join, Split;
    CommaListSplits(Numbered(letter, count));
  }

  // ------------------------------------------------------------------ the packet

  /** The document's methods with the one at `at` in front. */
  function WithFirst(methods: seq<VerificationMethod>, at: nat): seq<VerificationMethod>
    requires at < |methods|
  {
    [methods[at]] + methods[..at] + methods[at + 1..]
  }

  predicate ControllerSpelled(c: OneOrMany, text: string) {
    match c
    case One(value) => text == value
    case Many(values) => if values == [] then text == "" else Split(text, ',') == values
  }

  predicate TypesSpelled(types: seq<u64>, values: map<string, string>) {
    && values.Keys == {"id"} && |Split(values["id"], ',')| == |types|
    && forall i :: 0 <= i < |types| ==> Split(values["id"], ',')[i] == Decimal(types[i])
  }

  /** How many records come before those of the methods. */
  function Leading(doc: Document): nat {
    (if doc.alsoKnownAs == [] then 0 else 1) + (if doc.controller.None? then 0 else 1)
  }

  /** The records of a packet, in order: other names, controllers, methods, services, the root and the types. */
  predicate PacketSpelled(env: Env, doc: Document, methods: seq<VerificationMethod>, types: seq<u64>,
                          records: seq<TxtRecord>) {
    var did, at, n, m := doc.id.ToString(), Leading(doc), |methods|, |doc.service|;
    && |records| == at + n + m + 1 + (if types == [] then 0 else 1)
    && (doc.alsoKnownAs != [] ==> records[0].id == "aka" && Split(records[0].data, ',') == doc.alsoKnownAs)
    && (doc.controller.Some? ==>
          records[at - 1].id == "cnt" && ControllerSpelled(doc.controller.value, records[at - 1].data))
    && (forall i :: 0 <= i < n ==> MethodRecord(env, did, methods[i], i, records[at + i]))
    && (forall i :: 0 <= i < m ==> ServiceRecord(did, doc.service[i], i, records[at + n + i]))
    && records[at + n + m].id == "did"
    && RootSpelled(doc.relationships, did, methods, m, Properties(records[at + n + m].data))
    && (types != [] ==>
          records[|records| - 1].id == "typ" && TypesSpelled(types, Properties(records[|records| - 1].data)))
  }

  predicate MethodRecord(env: Env, did: string, m: VerificationMethod, i: nat, record: TxtRecord) {
    record.id == "k" + Decimal(i) && MethodSpelled(env, did, m, Properties(record.data))
  }

  predicate ServiceRecord(did: string, s: Service, i: nat, record: TxtRecord) {
    record.id == "s" + Decimal(i) && ServiceSpelled(did, s, Properties(record.data))
  }

  lemma {:induction false} VmTextAt(vms: seq<EncodedVm>, did: string, start: nat, i: nat)
    requires i < |vms|
    ensures |VmTexts(vms, did, start)| == |vms|
    ensures VmTexts(vms, did, start)[i]
            == NamedText("_" + VmLabel(start + i) + "._did.", PairsText(VmPairs(vms[i], did)))
    decreases vms
  {
    hide VmLabel, PairsText, VmPairs;
    if |vms| > 1 {
      VmTextAt(vms[1..], did, start + 1, if i > 0 then i - 1 else 0);
    }
  }

  lemma {:induction false} ServiceTextAt(services: seq<ServiceParts>, start: nat, i: nat)
    requires i < |services|
    ensures |ServiceTexts(services, start)| == |services|
    ensures ServiceTexts(services, start)[i]
            == NamedText("_" + ServiceLabel(start + i) + "._did.", PairsText(ServicePairs(services[i])))
    decreases services
  {
    hide ServiceLabel, PairsText, ServicePairs;
    if |services| > 1 {
      ServiceTextAt(services[1..], start + 1, if i > 0 then i - 1 else 0);
    }
  }

  lemma MethodRecordAt(env: Env, did: string, m: VerificationMethod, vm: EncodedVm, i: nat)
    requires EncodeMethod(env, did, m, {}) == Ok(vm)
    ensures MethodRecord(env, did, m, i, TxtRecord(LabelOf("_" + VmLabel(i) + "._did."), PairsText(VmPairs(vm, did))))
  {
    hide MethodSpelled, EncodeMethod, PairsText, VmPairs, LabelOf, Decimal;
    DecimalScalar(i);
    LabelOfName("k" + Decimal(i), "_did.");
    assert "_" + ("k" + Decimal(i)) + "." + "_did." == "_" + VmLabel(i) + "._did.";
    MethodIsSpelled(env, did, m);
  }

  lemma ServiceRecordAt(did: string, s: Service, i: nat)
    requires PlanService(s, did).Ok?
    ensures ServiceRecord(did, s, i, TxtRecord(LabelOf("_" + ServiceLabel(i) + "._did."),
                                               PairsText(ServicePairs(PlanService(s, did).value))))
  {
    hide ServiceSpelled, PlanService, PairsText, ServicePairs, LabelOf, Decimal;
    DecimalScalar(i);
    LabelOfName("s" + Decimal(i), "_did.");
    assert "_" + ("s" + Decimal(i)) + "." + "_did." == "_" + ServiceLabel(i) + "._did.";
    ServiceIsSpelled(s, did);
  }

  lemma {:induction false} PlannedServices(services: seq<Service>, did: string, seen: set<string>)
    requires PlanServices(services, did, seen).Ok?
    ensures |PlanServices(services, did, seen).value| == |services|
    ensures forall i :: 0 <= i < |services| ==>
              PlanService(services[i], did) == Ok(PlanServices(services, did, seen).value[i])
    decreases services
  {
    hide PlanService;
    if services != [] {
      PlannedServices(services[1..], did, seen + {services[0].id});
    }
  }

  /** The texts of a plan by position. */
  lemma PlanTextAt(p: Plan, doc: Document, types: seq<u64>)
    requires p.vms != []
    ensures var texts, a := PlanTexts(p, doc, types), |AkaTexts(p.aka)| + |ControllerTexts(p.controllers)|;
            var n, m := |p.vms|, |p.services|;
            && |texts| == a + n + m + 1 + |TypeTexts(types)|
            && (forall i :: 0 <= i < |AkaTexts(p.aka)| ==> texts[i] == AkaTexts(p.aka)[i])
            && (forall i :: 0 <= i < |ControllerTexts(p.controllers)| ==>
                  texts[|AkaTexts(p.aka)| + i] == ControllerTexts(p.controllers)[i])
            && |VmTexts(p.vms, doc.id.ToString(), 0)| == n && |ServiceTexts(p.services, 0)| == m
            && (forall i :: 0 <= i < n ==> texts[a + i] == VmTexts(p.vms, doc.id.ToString(), 0)[i])
            && (forall i :: 0 <= i < m ==> texts[a + n + i] == ServiceTexts(p.services, 0)[i])
            && texts[a + n + m] == NamedText("_did." + doc.id.id + ".", RootText(p))
            && (forall i :: 0 <= i < |TypeTexts(types)| ==> texts[a + n + m + 1 + i] == TypeTexts(types)[i])
  {
    hide AkaTexts, ControllerTexts, TypeTexts, PairsText, RootPairs, Did.ToString;
    VmTextAt(p.vms, doc.id.ToString(), 0, 0);
    if p.services != [] {
      ServiceTextAt(p.services, 0, 0);
    }
    hide VmTexts;
  }

  lemma AkaRecord(aka: seq<string>)
    requires aka != [] && AllScalar(aka)
    ensures |AkaTexts(aka)| == 1
    ensures LabelOf(AkaTexts(aka)[0].name) == "aka" && Split(AkaTexts(aka)[0].text, ',') == aka
  {
    hide LabelOf, Join, Split;
    CommaListSplits(aka);
    LabelOfName("aka", "_did.");
    assert "_" + "aka" + "." + "_did." == "_aka._did.";
  }

  lemma ControllerRecord(c: OneOrMany)
    requires ControllerStrings(Some(c)).Ok?
    ensures var texts := ControllerTexts(ControllerStrings(Some(c)).value);
            |texts| == 1 && LabelOf(texts[0].name) == "cnt" && ControllerSpelled(c, texts[0].text)
  {
    hide LabelOf, Split;
    LabelOfName("cnt", "_did.");
    assert "_" + "cnt" + "." + "_did." == "_cnt._did.";
    if c.Many? && c.values != [] {
      CommaListSplits(c.values);
    }
  }

  lemma TypesRecord(types: seq<u64>)
    requires types != []
    ensures |TypeTexts(types)| == 1 && LabelOf(TypeTexts(types)[0].name) == "typ"
    ensures TypesSpelled(types, Properties(TypeTexts(types)[0].text))
  {
    hide LabelOf, Join, Split, PairsText, Properties, Decimal;
    var pair := Pair("id", Join(Decimals(types), ','));
    forall i | 0 <= i < |types|
      ensures Scalar(Decimals(types)[i])
    {
      DecimalScalar(types[i]);
    }
    CommaListListable(Decimals(types));
    CommaListSplits(Decimals(types));
    PropertiesOfPairs([pair]);
    PairsMapOne(pair);
    LabelOfName("typ", "_did.");
    assert "_" + "typ" + "." + "_did." == "_typ._did.";
  }

  lemma RootLabel(suffix: string)
    ensures LabelOf("_did." + suffix + ".") == "did"
  {
    hide LabelOf;
    LabelOfName("did", suffix + ".");
    assert "_" + "did" + "." + (suffix + ".") == "_did." + suffix + ".";
  }

  lemma LeadingRecords(doc: Document, plan: Plan)
    requires plan.aka == doc.alsoKnownAs && AllScalar(plan.aka)
    requires ControllerStrings(doc.controller) == Ok(plan.controllers)
    ensures |AkaTexts(plan.aka)| == (if doc.alsoKnownAs == [] then 0 else 1)
    ensures |ControllerTexts(plan.controllers)| == (if doc.controller.None? then 0 else 1)
  {
  }

  function RecordOf(text: NamedText): TxtRecord {
    TxtRecord(LabelOf(text.name), text.text)
  }

  lemma MethodRecords(env: Env, did: string, methods: seq<VerificationMethod>, vms: seq<EncodedVm>)
    requires Encodes(env, did, methods, vms) && |VmTexts(vms, did, 0)| == |vms|
    ensures forall i :: 0 <= i < |methods| ==> MethodRecord(env, did, methods[i], i, RecordOf(VmTexts(vms, did, 0)[i]))
  {
    hide VmTexts, MethodRecord, EncodeMethod, PairsText, VmPairs, VmLabel, LabelOf;
    forall i | 0 <= i < |methods|
      ensures MethodRecord(env, did, methods[i], i, RecordOf(VmTexts(vms, did, 0)[i]))
    {
      VmTextAt(vms, did, 0, i);
      MethodRecordAt(env, did, methods[i], vms[i], i);
    }
  }

  lemma ServiceRecords(did: string, services: seq<Service>, parts: seq<ServiceParts>)
    requires |services| == |parts| && |ServiceTexts(parts, 0)| == |parts|
    requires forall i :: 0 <= i < |services| ==> PlanService(services[i], did) == Ok(parts[i])
    ensures forall i :: 0 <= i < |services| ==> ServiceRecord(did, services[i], i, RecordOf(ServiceTexts(parts, 0)[i]))
  {
    hide ServiceTexts, ServiceRecord, PlanService, PairsText, ServicePairs, ServiceLabel, LabelOf;
    forall i | 0 <= i < |services|
      ensures ServiceRecord(did, services[i], i, RecordOf(ServiceTexts(parts, 0)[i]))
    {
      ServiceTextAt(parts, 0, i);
      ServiceRecordAt(did, services[i], i);
    }
  }

  lemma RecordsSpelled(env: Env, doc: Document, types: seq<u64>)
    requires MakePlan(env, doc).Ok?
    ensures PacketSpelled(env, doc, IdentityFirst(doc.id.ToString(), doc.verificationMethod), types,
                          RecordsOf(PlanTexts(MakePlan(env, doc).value, doc, types)))
  {
    hide MakePlan, PlanTexts, AkaTexts, ControllerTexts, VmTexts, ServiceTexts, TypeTexts, LabelOf, Properties, Split,
      RootSpelled, MethodRecord, ServiceRecord, TypesSpelled, ControllerSpelled, IdentityFirst, EncodeMethod,
      PlanService, PlanServices, PlanVms, ControllerStrings, ResolveLists, ListPairs, AllScalar, MandatoryListsHold,
      RootText, Did.ToString, PairsText, VmPairs, ServicePairs, VmLabel, ServiceLabel, Decimal;
    var did, plan := doc.id.ToString(), MakePlan(env, doc).value;
    var methods := IdentityFirst(did, doc.verificationMethod);
    PlanFacts(env, doc);
    AcceptedWhenEncoded(env, doc);
    PlannedServices(doc.service, did, {});
    LeadingRecords(doc, plan);
    PlanTextAt(plan, doc, types);
    if doc.alsoKnownAs != [] {
      AkaRecord(plan.aka);
    }
    if doc.controller.Some? {
      ControllerRecord(doc.controller.value);
    }
    MethodRecords(env, did, methods, plan.vms);
    ServiceRecords(did, doc.service, plan.services);
    RootLabel(doc.id.id);
    RootIsSpelled(env, did, methods, plan.vms, doc.relationships, |plan.services|);
    RootTextIs(plan);
    if types != [] {
      TypesRecord(types);
    } else {
      assert TypeTexts(types) == [] by { NoTypeTexts(); }
    }
  }

  lemma NoTypeTexts()
    ensures TypeTexts([]) == []
  {
  }

  /** The hosts of the gateways that have a domain name, in order. */
  function DomainHosts(gateways: seq<Gateway>): seq<string> {
    if gateways == [] then []
    else (if gateways[0].DomainHost? then [gateways[0].host] else []) + DomainHosts(gateways[1..])
  }

  lemma {:induction false} TargetsAreHosts(gateways: seq<Gateway>)
    requires NsTargets(gateways).Ok?
    ensures |NsTargets(gateways).value| == |DomainHosts(gateways)|
    ensures forall i :: 0 <= i < |DomainHosts(gateways)| ==>
              NsTargets(gateways).value[i] == DomainHosts(gateways)[i] + "."
  {
    if gateways != [] {
      TargetsAreHosts(gateways[1..]);
    }
  }

  /** The packet of an accepted document. Its text records are the ones spelled out above, for the methods in the
      document's order but with `#0` in front; each stands under its own name, the root under the DID's. After them
      comes one name server record for each gateway with a domain name. */
  lemma WireFormat(env: Env, doc: Document, types: seq<u64>, gateways: seq<Gateway>) returns (at: nat)
    requires EncodeAnswers(env, doc, types, gateways).Ok?
    ensures at < |doc.verificationMethod| && doc.verificationMethod[at].id == doc.id.ToString() + "#0"
    ensures TxtRecords(EncodeAnswers(env, doc, types, gateways).value).Ok?
    ensures var answers := EncodeAnswers(env, doc, types, gateways).value;
            var records, hosts := TxtRecords(answers).value, DomainHosts(gateways);
            && PacketSpelled(env, doc, WithFirst(doc.verificationMethod, at), types, records)
            && |answers| == |records| + |hosts|
            && (forall i :: 0 <= i < |records| ==>
                  answers[i].Txt? && NameOf(doc.id.id, records[i].id) == answers[i].name)
            && (forall i :: 0 <= i < |hosts| ==>
                  answers[|records| + i] == Ns("_did." + doc.id.id + ".", hosts[i] + "."))
  {
    hide MakePlan, PlanTexts, NsTargets, TxtRecords, TextAnswers, PacketSpelled, IdentityFirst, RecordsOf, PlanVms,
      EncodeMethod, Did.ToString, LabelOf;
    var plan := MakePlan(env, doc).value;
    var texts, root := PlanTexts(plan, doc, types), "_did." + doc.id.id + ".";
    var targets := NsTargets(gateways).value;
    PlanFacts(env, doc);
    AcceptedWhenEncoded(env, doc);
    TextsReadBack(texts);
    NsIgnored(targets, root);
    TxtRecordsAppend(TextAnswers(texts), NsAnswers(targets, root));
    assert RecordsOf(texts) + [] == RecordsOf(texts);
    RecordsSpelled(env, doc, types);
    TargetsAreHosts(gateways);
    at := FirstIsIdentity(env, doc);
    TextNames(env, doc, types);
  }

  /** The name of the record with a given id. */
  function NameOf(suffix: string, id: string): string {
    if id == "did" then "_did." + suffix + "." else "_" + id + "._did."
  }

  lemma FirstIsIdentity(env: Env, doc: Document) returns (at: nat)
    requires PlanVms(env, doc).Ok?
    ensures at < |doc.verificationMethod| && doc.verificationMethod[at].id == doc.id.ToString() + "#0"
    ensures IdentityFirst(doc.id.ToString(), doc.verificationMethod) == WithFirst(doc.verificationMethod, at)
  {
    hide EncodeMethod, PlanVms, Did.ToString;
    var did := doc.id.ToString();
    AcceptedWhenEncoded(env, doc);
    var methods := IdentityFirst(did, doc.verificationMethod);
    assert EncodeMethod(env, did, methods[0], {}).Ok?;
    EncodedId(env, did, methods[0]);
    assert did + "#" + "0" == did + "#0";
    var j := SameElements(methods, doc.verificationMethod, 0);
    at := IndexOf(doc.verificationMethod, did + "#0").value;
  }

  lemma TextNames(env: Env, doc: Document, types: seq<u64>)
    requires MakePlan(env, doc).Ok?
    ensures var texts := PlanTexts(MakePlan(env, doc).value, doc, types);
            && |TextAnswers(texts)| == |RecordsOf(texts)| == |texts|
            && forall i :: 0 <= i < |texts| ==>
                 TextAnswers(texts)[i].Txt? && NameOf(doc.id.id, RecordsOf(texts)[i].id) == TextAnswers(texts)[i].name
  {
    hide MakePlan, PairsText, RootPairs, AkaTexts, ControllerTexts, TypeTexts, VmTexts, ServiceTexts, AllWellNamed,
      Did.ToString, TextAnswers, RecordsOf;
    var plan, suffix := MakePlan(env, doc).value, doc.id.id;
    var vms, svc := VmTexts(plan.vms, doc.id.ToString(), 0), ServiceTexts(plan.services, 0);
    var root := [NamedText("_did." + suffix + ".", PairsText(RootPairs(|plan.vms|, plan.listPairs, |plan.services|)))];
    FixedNames(plan, suffix, types);
    NumberedNames(plan, doc, suffix);
    var a := AkaTexts(plan.aka);
    WellNamedAppend(suffix, a, ControllerTexts(plan.controllers));
    a := a + ControllerTexts(plan.controllers);
    WellNamedAppend(suffix, a, vms);
    WellNamedAppend(suffix, a + vms, svc);
    WellNamedAppend(suffix, a + vms + svc, root);
    WellNamedAppend(suffix, a + vms + svc + root, TypeTexts(types));
    NamesHold(suffix, PlanTexts(plan, doc, types));
  }

  predicate AllWellNamed(suffix: string, texts: seq<NamedText>) {
    forall i :: 0 <= i < |texts| ==> WellNamed(suffix, texts[i])
  }

  lemma WellNamedAppend(suffix: string, a: seq<NamedText>, b: seq<NamedText>)
    requires AllWellNamed(suffix, a) && AllWellNamed(suffix, b)
    ensures AllWellNamed(suffix, a + b)
  {
    hide WellNamed;
  }

  lemma NumberedNames(plan: Plan, doc: Document, suffix: string)
    ensures AllWellNamed(suffix, VmTexts(plan.vms, doc.id.ToString(), 0))
    ensures AllWellNamed(suffix, ServiceTexts(plan.services, 0))
  {
    hide WellNamed, VmTexts, ServiceTexts, Did.ToString, PairsText, VmPairs, ServicePairs;
    var did := doc.id.ToString();
    var vms, svc := VmTexts(plan.vms, did, 0), ServiceTexts(plan.services, 0);
    TextCounts(plan, did);
    forall i | 0 <= i < |vms|
      ensures WellNamed(suffix, vms[i])
    {
      VmTextAt(plan.vms, did, 0, i);
      NumberedName(suffix, "k", i, vms[i]);
    }
    forall i | 0 <= i < |svc|
      ensures WellNamed(suffix, svc[i])
    {
      ServiceTextAt(plan.services, 0, i);
      NumberedName(suffix, "s", i, svc[i]);
    }
  }

  lemma TextCounts(plan: Plan, did: string)
    ensures |VmTexts(plan.vms, did, 0)| == |plan.vms| && |ServiceTexts(plan.services, 0)| == |plan.services|
  {
    hide PairsText, VmPairs, ServicePairs;
    if plan.vms != [] {
      VmTextAt(plan.vms, did, 0, 0);
    }
    if plan.services != [] {
      ServiceTextAt(plan.services, 0, 0);
    }
  }

  predicate WellNamed(suffix: string, text: NamedText) {
    NameOf(suffix, LabelOf(text.name)) == text.name
  }

  lemma NamesHold(suffix: string, texts: seq<NamedText>)
    requires AllWellNamed(suffix, texts)
    ensures |TextAnswers(texts)| == |RecordsOf(texts)| == |texts|
    ensures forall i :: 0 <= i < |texts| ==>
              TextAnswers(texts)[i].Txt? && NameOf(suffix, RecordsOf(texts)[i].id) == TextAnswers(texts)[i].name
  {
    hide LabelOf;
    forall i | 0 <= i < |texts|
      ensures TextAnswers(texts)[i].Txt? && NameOf(suffix, RecordsOf(texts)[i].id) == TextAnswers(texts)[i].name
    {
      assert WellNamed(suffix, texts[i]);
    }
  }

  lemma NumberedName(suffix: string, letter: string, i: nat, text: NamedText)
    requires letter == "k" || letter == "s"
    requires text.name == "_" + (letter + Decimal(i)) + "._did."
    ensures WellNamed(suffix, text)
  {
    hide LabelOf, Decimal;
    DecimalScalar(i);
    LabelOfName(letter + Decimal(i), "_did.");
    assert "_" + (letter + Decimal(i)) + "." + "_did." == text.name;
    assert (letter + Decimal(i))[0] != "did"[0];
  }

  lemma FixedNames(plan: Plan, suffix: string, types: seq<u64>)
    ensures AllWellNamed(suffix, AkaTexts(plan.aka)) && AllWellNamed(suffix, ControllerTexts(plan.controllers))
    ensures AllWellNamed(suffix, TypeTexts(types))
    ensures var root := PairsText(RootPairs(|plan.vms|, plan.listPairs, |plan.services|));
            AllWellNamed(suffix, [NamedText("_did." + suffix + ".", root)])
  {
    hide LabelOf, Join, PairsText, RootPairs;
    LabelOfName("aka", "_did.");
    LabelOfName("cnt", "_did.");
    LabelOfName("typ", "_did.");
    RootLabel(suffix);
    assert "_" + "aka" + "." + "_did." == "_aka._did." && "_" + "cnt" + "." + "_did." == "_cnt._did.";
    assert "_" + "typ" + "." + "_did." == "_typ._did.";
  }

  // ------------------------------------------------------------------ the root record lists the others

  /** The ids that start with a letter, in order. */
  function IdsWith(records: seq<TxtRecord>, letter: char): seq<string> {
    if records == [] then []
    else
      var last := records[|records| - 1].id;
      IdsWith(records[..|records| - 1], letter) + (if last != "" && last[0] == letter then [last] else [])
  }

  /** The records with this letter are the ones from `from` on, numbered from zero. */
  predicate LetterRuns(records: seq<TxtRecord>, letter: char, from: nat, count: nat) {
    && from + count <= |records|
    && (forall i :: 0 <= i < |records| && !(from <= i < from + count) ==>
          records[i].id != "" && records[i].id[0] != letter)
    && forall i :: 0 <= i < count ==> records[from + i].id == [letter] + Decimal(i)
  }

  lemma {:induction false} IdsOfRun(records: seq<TxtRecord>, letter: char, from: nat, count: nat, upTo: nat)
    requires LetterRuns(records, letter, from, count) && upTo <= |records|
    ensures IdsWith(records[..upTo], letter)
            == Numbered([letter], if upTo <= from then 0 else if upTo <= from + count then upTo - from else count)
    decreases upTo
  {
    hide Decimal;
    if upTo > 0 {
      IdsOfRun(records, letter, from, count, upTo - 1);
      assert records[..upTo][..upTo - 1] == records[..upTo - 1];
      if from < upTo <= from + count {
        assert records[upTo - 1].id == [letter] + Decimal(upTo - 1 - from);
        assert Numbered([letter], upTo - from)
            == Numbered([letter], upTo - 1 - from) + [[letter] + Decimal(upTo - 1 - from)];
      }
    }
  }

  /** The packet has exactly one root record, and that record lists the ids of all method records and of all service
      records of the same packet, in their order; without services it lists none. */
  lemma RootListsRecords(env: Env, doc: Document, types: seq<u64>, gateways: seq<Gateway>) returns (root: nat)
    requires EncodeAnswers(env, doc, types, gateways).Ok?
    ensures TxtRecords(EncodeAnswers(env, doc, types, gateways).value).Ok?
    ensures var records := TxtRecords(EncodeAnswers(env, doc, types, gateways).value).value;
            && root < |records| && (forall i :: 0 <= i < |records| ==> (records[i].id == "did" <==> i == root))
            && var values := Properties(records[root].data);
            && Says(values, "v", "0")
            && "vm" in values && Split(values["vm"], ',') == IdsWith(records, 'k')
            && ("svc" in values <==> IdsWith(records, 's') != [])
            && ("svc" in values ==> Split(values["svc"], ',') == IdsWith(records, 's'))
  {
    hide EncodeAnswers, TxtRecords, PacketSpelled, Split, Properties, RootSpelled, Did.ToString, IdsWith, Numbered,
      LetterRuns;
    var at := WireFormat(env, doc, types, gateways);
    var records := TxtRecords(EncodeAnswers(env, doc, types, gateways).value).value;
    var methods := WithFirst(doc.verificationMethod, at);
    var n, m := |methods|, |doc.service|;
    root := Leading(doc) + n + m;
    PacketIds(env, doc, methods, types, records);
    IdsOfRun(records, 'k', Leading(doc), n, |records|);
    IdsOfRun(records, 's', Leading(doc) + n, m, |records|);
    assert records[..|records|] == records;
    RootCounts(doc.relationships, doc.id.ToString(), methods, m, Properties(records[root].data));
  }

  lemma RootCounts(r: Relationships, did: string, methods: seq<VerificationMethod>, services: nat,
                   values: map<string, string>)
    requires RootSpelled(r, did, methods, services, values)
    ensures Says(values, "v", "0") && "vm" in values && Split(values["vm"], ',') == Numbered("k", |methods|)
    ensures "svc" in values <==> Numbered("s", services) != []
    ensures "svc" in values ==> Split(values["svc"], ',') == Numbered("s", services)
  {
    hide ListSpelledAs, Split;
  }

  lemma PacketIds(env: Env, doc: Document, methods: seq<VerificationMethod>, types: seq<u64>, records: seq<TxtRecord>)
    requires PacketSpelled(env, doc, methods, types, records)
    ensures var at, n, m := Leading(doc), |methods|, |doc.service|;
            && LetterRuns(records, 'k', at, n) && LetterRuns(records, 's', at + n, m)
            && at + n + m < |records|
            && (forall i :: 0 <= i < |records| ==> (records[i].id == "did" <==> i == at + n + m))
            && RootSpelled(doc.relationships, doc.id.ToString(), methods, m, Properties(records[at + n + m].data))
  {
    hide MethodSpelled, ServiceSpelled, Split, Properties, ControllerSpelled, TypesSpelled, RootSpelled, Did.ToString,
      Decimal, LetterRuns;
    var did, at, n, m := doc.id.ToString(), Leading(doc), |methods|, |doc.service|;
    forall i | 0 <= i < n
      ensures records[at + i].id == "k" + Decimal(i)
    {
      assert MethodRecord(env, did, methods[i], i, records[at + i]);
    }
    forall i | 0 <= i < m
      ensures records[at + n + i].id == "s" + Decimal(i)
    {
      assert ServiceRecord(did, doc.service[i], i, records[at + n + i]);
    }
    LetterRunsHold(records, at, n, m);
  }

  lemma LetterRunsHold(records: seq<TxtRecord>, at: nat, n: nat, m: nat)
    requires at <= 2 && at + n + m + 1 <= |records| <= at + n + m + 2
    requires forall i :: 0 <= i < at ==> records[i].id == "aka" || records[i].id == "cnt"
    requires forall i :: 0 <= i < n ==> records[at + i].id == "k" + Decimal(i)
    requires forall i :: 0 <= i < m ==> records[at + n + i].id == "s" + Decimal(i)
    requires records[at + n + m].id == "did"
    requires |records| == at + n + m + 2 ==> records[at + n + m + 1].id == "typ"
    ensures LetterRuns(records, 'k', at, n) && LetterRuns(records, 's', at + n, m)
    ensures forall i :: 0 <= i < |records| ==> (records[i].id == "did" <==> i == at + n + m)
  {
    hide Decimal;
    forall i | 0 <= i < |records|
      ensures records[i].id != ""
      ensures records[i].id[0] == 'k' <==> at <= i < at + n
      ensures records[i].id[0] == 's' <==> at + n <= i < at + n + m
      ensures records[i].id == "did" <==> i == at + n + m
    {
      if at <= i < at + n {
        assert records[at + (i - at)].id == "k" + Decimal(i - at);
      } else if at + n <= i < at + n + m {
        assert records[at + n + (i - at - n)].id == "s" + Decimal(i - at - n);
      }
      assert "did"[0] == 'd' && "typ"[0] == 't' && "aka"[0] == 'a' && "cnt"[0] == 'c';
    }
  }
}

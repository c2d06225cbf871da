/** Each method record and each service record that the encoder writes decodes to the normal form
    of the method or service it was written for. */
module DhtRoundTrip {
  import opened Wrappers
  import opened Text
  import opened Bytes
  import opened Utf8
  import opened Segments
  import opened DidDocument
  import opened DhtRecords
  import opened DhtEncode
  import opened DhtDecode
  import opened DhtNormal
  import Base64Url
  import BTree

  // ------------------------------------------------------------------ one verification method

  lemma DecimalScalar(n: nat)
    ensures Scalar(Decimal(n)) && '.' !in Decimal(n)
  {
  }

  /** The optional pair of a record that is present exactly when `present`. */
  function OptionalPair(present: bool, key: string, value: string): seq<Pair> {
    if present then [Pair(key, value)] else []
  }

  lemma OptionalPairMap(present: bool, key: string, value: string)
    ensures PairsMap(OptionalPair(present, key, value)) == if present then map[key := value] else map[]
  {
  }

  predicate IdOnWire(vm: EncodedVm) {
    vm.fragment != "0" && vm.thumbprint != vm.fragment
  }

  lemma VmPairsMapIs(vm: EncodedVm, did: string)
    ensures PairsMap(VmPairs(vm, did))
            == (if IdOnWire(vm) then map["id" := vm.fragment] else map[])
               + map["t" := Decimal(vm.keyType)] + map["k" := vm.keyBase64]
               + (if vm.algorithm.Some? then map["a" := vm.algorithm.value] else map[])
               + (if vm.controller != did then map["c" := vm.controller] else map[])
  {
    hide PairsMap, Decimal;
    var alg := if vm.algorithm.Some? then vm.algorithm.value else "";
    var idPart := OptionalPair(IdOnWire(vm), "id", vm.fragment);
    var tPart := [Pair("t", Decimal(vm.keyType))];
    var kPart := [Pair("k", vm.keyBase64)];
    var aPart := OptionalPair(vm.algorithm.Some?, "a", alg);
    var cPart := OptionalPair(vm.controller != did, "c", vm.controller);
    assert VmPairs(vm, did) == idPart + tPart + kPart + aPart + cPart;
    PairsMapAppend(idPart, tPart);
    PairsMapAppend(idPart + tPart, kPart);
    PairsMapAppend(idPart + tPart + kPart, aPart);
    PairsMapAppend(idPart + tPart + kPart + aPart, cPart);
    OptionalPairMap(IdOnWire(vm), "id", vm.fragment);
    PairsMapOne(Pair("t", Decimal(vm.keyType)));
    PairsMapOne(Pair("k", vm.keyBase64));
    OptionalPairMap(vm.algorithm.Some?, "a", alg);
    OptionalPairMap(vm.controller != did, "c", vm.controller);
  }

  lemma VmPairsMap(vm: EncodedVm, did: string)
    ensures var values := PairsMap(VmPairs(vm, did));
            && Get(values, "k") == Some(vm.keyBase64)
            && Get(values, "t") == Some(Decimal(vm.keyType))
            && Get(values, "id") == (if IdOnWire(vm) then Some(vm.fragment) else None)
            && Get(values, "a") == vm.algorithm
            && Get(values, "c") == (if vm.controller != did then Some(vm.controller) else None)
  {
    hide PairsMap, VmPairs, Decimal;
    VmPairsMapIs(vm, did);
  }

  lemma VmPairsSafe(env: Env, did: string, m: VerificationMethod, seen: set<string>)
    requires EncodeMethod(env, did, m, seen).Ok?
    ensures VmPairs(EncodeMethod(env, did, m, seen).value, did) != []
    ensures SafePairs(VmPairs(EncodeMethod(env, did, m, seen).value, did))
  {
    hide Decimal, Base64Url.Encode, ToWireKey, DefaultAlgorithm;
    var vm := EncodeMethod(env, did, m, seen).value;
    DecimalScalar(vm.keyType);
    Base64Url.EncodeDelimiterFree(ToWireKey(KeyOf(m).material).value.raw);
  }

  lemma ParsedDefault(env: Env, keyType: nat, raw: bytes)
    requires keyType <= 3
    ensures var r := ParseKey(env, Decimal(keyType), raw);
            r.Ok? ==> r.value.defaultAlgorithm == DefaultAlgorithm(keyType)
  {
  }

  lemma MethodSeenIrrelevant(env: Env, did: string, m: VerificationMethod, seen: set<string>)
    requires EncodeMethod(env, did, m, seen).Ok?
    ensures EncodeMethod(env, did, m, {}) == EncodeMethod(env, did, m, seen)
  {
  }

  /** A method's record decodes to the method's normal form. */
  lemma MethodRoundTrip(env: Env, did: string, m: VerificationMethod, recordId: string)
    requires AcceptedMethod(env, did, m)
    requires recordId == "k0" <==> EncodeMethod(env, did, m, {}).value.fragment == "0"
    ensures DecodeMethod(env, did, recordId, PairsText(VmPairs(EncodeMethod(env, did, m, {}).value, did)))
            == NormalMethod(env, did, m)
  {
    hide Properties, PairsMap, PairsText, VmPairs, Base64Url.Decode, Base64Url.Encode, ParseKey, Decimal, ToWireKey,
      DefaultAlgorithm;
    var vm := EncodeMethod(env, did, m, {}).value;
    var wire := ToWireKey(KeyOf(m).material).value;
    VmPairsSafe(env, did, m, {});
    PropertiesOfPairs(VmPairs(vm, did));
    VmPairsMap(vm, did);
    Base64Url.DecodeEncode(wire.raw);
    ParsedDefault(env, wire.keyType, wire.raw);
    assert vm.fragment == m.id[|did| + 1..] by {
      assert m.id == did + "#" + vm.fragment;
    }
  }

  // ------------------------------------------------------------------ all verification methods

  predicate Encodes(env: Env, did: string, methods: seq<VerificationMethod>, vms: seq<EncodedVm>) {
    && |methods| == |vms|
    && forall i :: 0 <= i < |methods| ==> EncodeMethod(env, did, methods[i], {}) == Ok(vms[i])
  }

  predicate DistinctFragments(vms: seq<EncodedVm>) {
    forall i, j :: 0 <= i < j < |vms| ==> vms[i].fragment != vms[j].fragment
  }

  lemma {:induction false} EncodeMethodsFacts(env: Env, did: string, methods: seq<VerificationMethod>,
                                              seen: set<string>)
    requires EncodeMethods(env, did, methods, seen).Ok?
    ensures var vms := EncodeMethods(env, did, methods, seen).value;
            && Encodes(env, did, methods, vms)
            && DistinctFragments(vms)
            && forall i :: 0 <= i < |vms| ==> vms[i].fragment !in seen
  {
    if methods != [] {
      var vm := EncodeMethod(env, did, methods[0], seen).value;
      MethodSeenIrrelevant(env, did, methods[0], seen);
      EncodeMethodsFacts(env, did, methods[1..], seen + {vm.fragment});
    }
  }

  lemma EncodedId(env: Env, did: string, m: VerificationMethod)
    requires AcceptedMethod(env, did, m)
    ensures m.id == did + "#" + EncodeMethod(env, did, m, {}).value.fragment
  {
  }

  lemma {:induction false} PositionsAgree(env: Env, did: string, methods: seq<VerificationMethod>, vms: seq<EncodedVm>)
    requires Encodes(env, did, methods, vms)
    ensures IdentityPosition(vms) == IndexOf(methods, did + "#0")
  {
    hide EncodeMethod;
    if methods != [] {
      EncodedId(env, did, methods[0]);
      PositionsAgree(env, did, methods[1..], vms[1..]);
      var f := vms[0].fragment;
      assert methods[0].id == did + "#0" <==> f == "0" by {
        assert (did + "#" + f)[|did| + 1..] == f;
        assert (did + "#0")[|did| + 1..] == "0";
      }
    }
  }

  lemma {:induction false} LookupAgrees(env: Env, did: string, methods: seq<VerificationMethod>, vms: seq<EncodedVm>,
                                        id: string, start: nat)
    requires Encodes(env, did, methods, vms)
    ensures LookupLabel(vms, did, id, start)
            == match IndexOf(methods, id) case None => None case Some(i) => Some(VmLabel(start + i))
  {
    hide EncodeMethod;
    if methods != [] {
      EncodedId(env, did, methods[0]);
      LookupAgrees(env, did, methods[1..], vms[1..], id, start + 1);
    }
  }

  /** Position that an element had before the move. */
  function SourceIndex(i: nat, j: nat): nat {
    if j == 0 then i else if j <= i then j - 1 else j
  }

  lemma MoveToFrontAt<T>(items: seq<T>, i: nat, j: nat)
    requires i < |items| && j < |items|
    ensures MoveToFront(items, i)[j] == items[SourceIndex(i, j)]
  {
  }

  lemma MovedEncodes(env: Env, did: string, methods: seq<VerificationMethod>, vms: seq<EncodedVm>, i: nat)
    requires Encodes(env, did, methods, vms) && DistinctFragments(vms) && i < |vms|
    ensures Encodes(env, did, MoveToFront(methods, i), MoveToFront(vms, i))
    ensures DistinctFragments(MoveToFront(vms, i))
  {
    hide EncodeMethod, MoveToFront;
    forall j | 0 <= j < |vms|
      ensures MoveToFront(vms, i)[j] == vms[SourceIndex(i, j)]
      ensures MoveToFront(methods, i)[j] == methods[SourceIndex(i, j)]
    {
      MoveToFrontAt(vms, i, j);
      MoveToFrontAt(methods, i, j);
    }
  }

  function RecordsOf(texts: seq<NamedText>): seq<TxtRecord> {
    seq(|texts|, i requires 0 <= i < |texts| => TxtRecord(LabelOf(texts[i].name), texts[i].text))
  }

  lemma {:induction false} TextsReadBack(texts: seq<NamedText>)
    ensures TxtRecords(TextAnswers(texts)) == Ok(RecordsOf(texts))
  {
    hide CharSegments, FromUtf8, LabelOf;
    if texts == [] {
      assert TextAnswers(texts) == [];
    } else {
      TextsReadBack(texts[1..]);
      assert TextAnswers(texts)[1..] == TextAnswers(texts[1..]);
      ReassembleSegments(texts[0].text);
      assert RecordsOf(texts) == [TxtRecord(LabelOf(texts[0].name), texts[0].text)] + RecordsOf(texts[1..]);
    }
  }

  lemma {:induction false} NsIgnored(targets: seq<string>, root: string)
    ensures TxtRecords(NsAnswers(targets, root)) == Ok([])
  {
    if targets == [] {
      assert NsAnswers(targets, root) == [];
    } else {
      NsIgnored(targets[1..], root);
      assert NsAnswers(targets, root)[1..] == NsAnswers(targets[1..], root);
    }
  }

  /** The reader's index after the methods' records: each label leads to its method's id. */
  function AddIds(ids: map<string, string>, methods: seq<VerificationMethod>, start: nat): map<string, string>
    decreases methods
  {
    if methods == [] then ids else AddIds(ids[VmLabel(start) := methods[0].id], methods[1..], start + 1)
  }

  lemma VmLabelInjective(i: nat, j: nat)
    requires VmLabel(i) == VmLabel(j)
    ensures i == j
  {
    assert VmLabel(i)[1..] == Decimal(i) && VmLabel(j)[1..] == Decimal(j);
    DecimalInjective(i, j);
  }

  lemma IdentityLabel(i: nat)
    ensures VmLabel(i) == "k0" <==> i == 0
  {
    assert VmLabel(0) == "k0";
    if VmLabel(i) == "k0" {
      VmLabelInjective(i, 0);
    }
  }

  lemma {:induction false} AddIdsLookup(ids: map<string, string>, methods: seq<VerificationMethod>, start: nat, j: nat)
    requires j < start + |methods|
    requires j < start ==> VmLabel(j) in ids
    ensures var all := AddIds(ids, methods, start);
            VmLabel(j) in all && all[VmLabel(j)] == if j < start then ids[VmLabel(j)] else methods[j - start].id
    decreases methods
  {
    if methods != [] {
      if j < start && VmLabel(j) == VmLabel(start) {
        VmLabelInjective(j, start);
      }
      AddIdsLookup(ids[VmLabel(start) := methods[0].id], methods[1..], start + 1, j);
    }
  }

  lemma VmRecordApplies(env: Env, did: string, p: Progress, i: nat, data: string)
    ensures LabelOf("_" + VmLabel(i) + "._did.") == VmLabel(i)
    ensures ApplyRecord(env, did, p, TxtRecord(VmLabel(i), data))
            == var r := DecodeMethod(env, did, VmLabel(i), data);
               if r.Err? then Err(r.error)
               else Ok(p.(methods := p.methods + [r.value], ids := p.ids[VmLabel(i) := r.value.id]))
  {
    hide DecodeMethod, Decimal, LabelOf;
    DecimalScalar(i);
    LabelOfName(VmLabel(i), "_did.");
    assert "_" + VmLabel(i) + "." + "_did." == "_" + VmLabel(i) + "._did.";
    assert VmLabel(i)[0] == 'k' && "aka"[0] == 'a' && "cnt"[0] == 'c';
    assert VmLabel(i)[..1] == "k";
  }

  lemma VmTextsCons(vms: seq<EncodedVm>, did: string, start: nat)
    requires vms != []
    ensures RecordsOf(VmTexts(vms, did, start))
            == [TxtRecord(VmLabel(start), PairsText(VmPairs(vms[0], did)))]
              + RecordsOf(VmTexts(vms[1..], did, start + 1))
  {
    hide PairsText, VmPairs, Decimal, LabelOf;
    DecimalScalar(start);
    LabelOfName(VmLabel(start), "_did.");
    assert "_" + VmLabel(start) + "." + "_did." == "_" + VmLabel(start) + "._did.";
  }

  function WithMethods(p: Progress, r: Result<seq<VerificationMethod>, DhtError>,
                       start: nat): Result<Progress, DhtError> {
    if r.Err? then Err(r.error)
    else Ok(p.(methods := p.methods + r.value, ids := AddIds(p.ids, r.value, start)))
  }

  /** Reading one more method first, then the rest. */
  lemma WithMethodsCons(env: Env, did: string, p: Progress, methods: seq<VerificationMethod>, start: nat)
    requires methods != [] && forall i :: 0 <= i < |methods| ==> AcceptedMethod(env, did, methods[i])
    ensures WithMethods(p, NormalMethods(env, did, methods), start)
            == var first := NormalMethod(env, did, methods[0]);
               if first.Err? then Err(first.error)
               else
                 WithMethods(p.(methods := p.methods + [first.value], ids := p.ids[VmLabel(start) := first.value.id]),
                             NormalMethods(env, did, methods[1..]), start + 1)
  {
    hide NormalMethod, AcceptedMethod, VmLabel;
    if NormalMethods(env, did, methods).Ok? {
      var first, rest := NormalMethod(env, did, methods[0]).value, NormalMethods(env, did, methods[1..]).value;
      assert NormalMethods(env, did, methods).value == [first] + rest;
      assert ([first] + rest)[1..] == rest;
      assert p.methods + [first] + rest == p.methods + ([first] + rest);
    }
  }

  lemma {:induction false} MethodsReadBack(env: Env, did: string, p: Progress, methods: seq<VerificationMethod>,
                                           vms: seq<EncodedVm>, start: nat)
    requires Encodes(env, did, methods, vms)
    requires forall i :: 0 <= i < |vms| ==> (start + i == 0 <==> vms[i].fragment == "0")
    ensures ApplyRecords(env, did, p, RecordsOf(VmTexts(vms, did, start)))
            == WithMethods(p, NormalMethods(env, did, methods), start)
    decreases methods
  {
    hide DecodeMethod, NormalMethod, EncodeMethod, PairsText, VmPairs, LabelOf, ApplyRecord, VmLabel, RecordsOf,
      VmTexts;
    if methods == [] {
      NoVmTexts(vms, did, start);
      assert p.methods + [] == p.methods;
    } else {
      var data := PairsText(VmPairs(vms[0], did));
      var rest := RecordsOf(VmTexts(vms[1..], did, start + 1));
      VmTextsCons(vms, did, start);
      ApplyRecordsCons(env, did, p, TxtRecord(VmLabel(start), data), rest);
      VmRecordApplies(env, did, p, start, data);
      IdentityLabel(start);
      MethodRoundTrip(env, did, methods[0], VmLabel(start));
      WithMethodsCons(env, did, p, methods, start);
      hide NormalMethods, AddIds, WithMethods, ApplyRecords;
      if NormalMethod(env, did, methods[0]).Ok? {
        var m := NormalMethod(env, did, methods[0]).value;
        MethodsReadBack(env, did, p.(methods := p.methods + [m], ids := p.ids[VmLabel(start) := m.id]), methods[1..],
                        vms[1..], start + 1);
      }
    }
  }

  lemma NoVmTexts(vms: seq<EncodedVm>, did: string, start: nat)
    requires vms == []
    ensures RecordsOf(VmTexts(vms, did, start)) == []
  {
  }

  // ------------------------------------------------------------------ services

  /** A comma list is the empty text only when it is one empty item. */
  lemma EmptyJoin(items: seq<string>)
    requires items != []
    ensures Join(items, ',') == "" <==> items == [""]
  {
  }

  lemma ExtraValueOfJoin(items: seq<string>)
    requires items != [] && AllScalar(items)
    ensures ExtraValue(Join(items, ',')) == NormalItems(items)
    ensures KindOf(Join(items, ',')) == NormalKind(items)
    ensures ListValue(Join(items, ',')) == StringArray(items)
  {
    CommaListSplits(items);
  }

  /** The wire text of one property is the comma list of its items. */
  predicate ExtraSpelled(properties: map<string, Json>, name: string, text: string) {
    && name in properties && Scalar(name) && name !in {"id", "t", "se"}
    && PropertyStrings(properties[name]).Some?
    && AllScalar(PropertyStrings(properties[name]).value)
    && text == Join(PropertyStrings(properties[name]).value, ',')
  }

  ghost predicate ExtrasSpell(properties: map<string, Json>, names: seq<string>, values: map<string, string>) {
    && (forall k :: k in values <==> k in names)
    && (forall k :: k in values ==> ExtraSpelled(properties, k, values[k]))
  }

  lemma ExtrasSpellCons(properties: map<string, Json>, first: Pair, names: seq<string>, rest: seq<Pair>)
    requires ExtraSpelled(properties, first.key, first.value)
    requires ExtrasSpell(properties, names, PairsMap(rest)) && SafePairs(rest)
    ensures ExtrasSpell(properties, [first.key] + names, PairsMap([first] + rest)) && SafePairs([first] + rest)
  {
    hide PropertyStrings, PairsMap, Join;
    CommaListListable(PropertyStrings(properties[first.key]).value);
    PairsMapAppend([first], rest);
    PairsMapOne(first);
  }

  lemma {:induction false} ExtrasPlanned(properties: map<string, Json>, names: seq<string>)
    requires forall i :: 0 <= i < |names| ==> names[i] in properties
    requires PlanExtras(properties, names).Ok?
    ensures var extras := PlanExtras(properties, names).value;
            ExtrasSpell(properties, names, PairsMap(ExtraPairs(extras))) && SafePairs(ExtraPairs(extras))
  {
    hide PropertyStrings, Join, ExtrasSpell, SafePairs;
    var extras := PlanExtras(properties, names).value;
    if names == [] {
      assert ExtraPairs(extras) == [];
      NoExtras(properties);
      assert names == [];
    } else {
      var first := Pair(names[0], Join(PropertyStrings(properties[names[0]]).value, ','));
      var rest := PlanExtras(properties, names[1..]).value;
      ExtrasPlanned(properties, names[1..]);
      ExtrasSpellCons(properties, first, names[1..], ExtraPairs(rest));
      assert ExtraPairs(extras) == [first] + ExtraPairs(rest);
      assert names == [names[0]] + names[1..];
    }
  }

  lemma NoExtras(properties: map<string, Json>)
    ensures ExtrasSpell(properties, [], PairsMap([])) && SafePairs([])
  {
  }

  lemma ServicePairsMap(p: ServiceParts)
    requires "id" !in PairsMap(ExtraPairs(p.extras)) && "t" !in PairsMap(ExtraPairs(p.extras))
    requires "se" !in PairsMap(ExtraPairs(p.extras))
    ensures var values := PairsMap(ServicePairs(p));
            && Get(values, "id") == Some(p.fragment) && Get(values, "t") == Some(p.kind)
            && Get(values, "se") == Some(Join(p.endpoints, ','))
            && values - {"id", "t", "se"} == PairsMap(ExtraPairs(p.extras))
  {
    hide PairsMap, Join;
    var a, b, c := Pair("id", p.fragment), Pair("t", p.kind), Pair("se", Join(p.endpoints, ','));
    assert ServicePairs(p) == [a] + [b] + [c] + ExtraPairs(p.extras);
    PairsMapAppend([a], [b]);
    PairsMapAppend([a] + [b], [c]);
    PairsMapAppend([a] + [b] + [c], ExtraPairs(p.extras));
    PairsMapOne(a);
    PairsMapOne(b);
    PairsMapOne(c);
  }

  /** What an accepted service is known to hold. */
  lemma PlannedService(s: Service, did: string)
    requires PlanService(s, did).Ok?
    ensures var p := PlanService(s, did).value;
            && Scalar(p.fragment) && Scalar(p.kind) && AllScalar(p.endpoints)
            && PlanExtras(s.properties, BTree.InOrder(s.properties.Keys)) == Ok(p.extras)
  {
    hide Scalar, AllScalar, PlanExtras, BTree.InOrder, EndpointStrings;
  }

  lemma ServicePairsSafe(s: Service, did: string)
    requires PlanService(s, did).Ok?
    ensures SafePairs(ServicePairs(PlanService(s, did).value))
  {
    hide Join, PlanService, PlanExtras, BTree.InOrder, PairsMap, ExtrasSpell, ExtraPairs;
    var p := PlanService(s, did).value;
    PlannedService(s, did);
    ExtrasPlanned(s.properties, BTree.InOrder(s.properties.Keys));
    CommaListListable(p.endpoints);
  }

  lemma ExtrasReadBack(properties: map<string, Json>, names: seq<string>, values: map<string, string>)
    requires ExtrasSpell(properties, names, values)
    requires forall k :: k in names <==> k in properties
    ensures (map k | k in values.Keys - {"type", "serviceEndpoint"} :: ExtraValue(values[k]))
            == (map k | k in properties.Keys - {"type", "serviceEndpoint"} :: NormalValue(properties[k]))
    ensures "type" in values <==> "type" in properties
    ensures "type" in values ==> KindOf(values["type"]) == NormalKind(PropertyStrings(properties["type"]).value)
    ensures "serviceEndpoint" in values <==> "serviceEndpoint" in properties
    ensures "serviceEndpoint" in values ==>
              ExtraValue(values["serviceEndpoint"]) == NormalValue(properties["serviceEndpoint"])
  {
    hide ExtraValue, KindOf, NormalItems, NormalKind, Join, ListValue, PropertyStrings;
    assert values.Keys == properties.Keys;
    forall k | k in properties
      ensures ExtraValue(values[k]) == NormalValue(properties[k])
      ensures KindOf(values[k]) == NormalKind(PropertyStrings(properties[k]).value)
    {
      ExtraValueOfJoin(PropertyStrings(properties[k]).value);
    }
  }

  /** A service's record decodes to the service's normal form. */
  lemma ServiceRoundTrip(s: Service, did: string)
    requires PlanService(s, did).Ok?
    ensures DecodeService(did, PairsText(ServicePairs(PlanService(s, did).value))) == NormalService(s)
  {
    hide Join, PairsMap, PairsText, Properties, ServicePairs, ExtraValue, KindOf, ListValue, NormalKind, NormalValue,
      PropertyStrings, PlanExtras, BTree.InOrder;
    var p := PlanService(s, did).value;
    var names := BTree.InOrder(s.properties.Keys);
    var values := PairsMap(ExtraPairs(p.extras));
    ExtrasPlanned(s.properties, names);
    ServicePairsSafe(s, did);
    PropertiesOfPairs(ServicePairs(p)) by {
      assert ServicePairs(p) != [] by { ServicePairsNonEmpty(p); }
    }
    ServicePairsMap(p);
    ExtrasReadBack(s.properties, names, values);
    EmptyJoin(p.endpoints);
    ExtraValueOfJoin(p.endpoints);
  }

  lemma ServicePairsNonEmpty(p: ServiceParts)
    ensures ServicePairs(p) != []
  {
  }

  function WithServices(p: Progress, r: Result<seq<Service>, DhtError>): Result<Progress, DhtError> {
    if r.Err? then Err(r.error) else Ok(p.(services := p.services + r.value))
  }

  lemma ServiceRecordApplies(env: Env, did: string, p: Progress, i: nat, data: string)
    ensures ApplyRecord(env, did, p, TxtRecord(ServiceLabel(i), data))
            == if DecodeService(did, data).Err? then Err(DecodeService(did, data).error)
               else Ok(p.(services := p.services + [DecodeService(did, data).value]))
  {
    hide DecodeService, Decimal;
    assert ServiceLabel(i)[0] == 's' && "aka"[0] == 'a' && "cnt"[0] == 'c' && "k"[0] == 'k';
    assert ServiceLabel(i)[..1] == "s";
  }

  lemma ServiceTextsCons(parts: seq<ServiceParts>, start: nat)
    requires parts != []
    ensures RecordsOf(ServiceTexts(parts, start))
            == [TxtRecord(ServiceLabel(start), PairsText(ServicePairs(parts[0])))]
              + RecordsOf(ServiceTexts(parts[1..], start + 1))
  {
    hide PairsText, ServicePairs, Decimal, LabelOf;
    DecimalScalar(start);
    LabelOfName(ServiceLabel(start), "_did.");
    assert "_" + ServiceLabel(start) + "." + "_did." == "_" + ServiceLabel(start) + "._did.";
  }

  lemma {:induction false} ServicesReadBack(env: Env, did: string, p: Progress, services: seq<Service>,
                                            seen: set<string>, start: nat)
    requires PlanServices(services, did, seen).Ok?
    ensures ApplyRecords(env, did, p, RecordsOf(ServiceTexts(PlanServices(services, did, seen).value, start)))
            == WithServices(p, NormalServices(services))
    decreases services
  {
    hide PlanService, NormalService, DecodeService, PairsText, ServicePairs, ServiceTexts, RecordsOf, ApplyRecords,
      ApplyRecord, ServiceLabel, NormalServices, WithServices;
    if services == [] {
      NoServiceRecords(env, did, p, start);
    } else {
      var parts := PlanServices(services, did, seen).value;
      var data := PairsText(ServicePairs(parts[0]));
      var rest := RecordsOf(ServiceTexts(parts[1..], start + 1));
      ServiceTextsCons(parts, start);
      ApplyRecordsCons(env, did, p, TxtRecord(ServiceLabel(start), data), rest);
      ServiceRecordApplies(env, did, p, start, data);
      ServiceRoundTrip(services[0], did);
      WithServicesCons(p, services);
      if NormalService(services[0]).Ok? {
        var n := NormalService(services[0]).value;
        ServicesReadBack(env, did, p.(services := p.services + [n]), services[1..], seen + {services[0].id}, start + 1);
      }
    }
  }

  lemma WithServicesCons(p: Progress, services: seq<Service>)
    requires services != []
    ensures var n := NormalService(services[0]);
            WithServices(p, NormalServices(services))
            == if n.Err? then Err(n.error)
               else WithServices(p.(services := p.services + [n.value]), NormalServices(services[1..]))
  {
    hide NormalService;
    if NormalService(services[0]).Ok? && NormalServices(services[1..]).Ok? {
      var n, ns := NormalService(services[0]).value, NormalServices(services[1..]).value;
      assert p.services + [n] + ns == p.services + ([n] + ns);
    }
  }

  lemma NoServiceRecords(env: Env, did: string, p: Progress, start: nat)
    ensures ApplyRecords(env, did, p, RecordsOf(ServiceTexts([], start))) == WithServices(p, NormalServices([]))
  {
    assert RecordsOf(ServiceTexts([], start)) == [];
    assert p.services + [] == p.services;
  }
}

/** The encoder and the decoder as they run: loops that grow lists, sets and maps, each proved to
    compute what the functions of `DhtEncode` and `DhtDecode` define. */
module DhtLoops {
  import opened Wrappers
  import opened Text
  import opened Bytes
  import opened Utf8
  import opened Segments
  import opened DidDocument
  import opened DhtRecords
  import opened DhtEncode
  import opened DhtDecode
  import Base64Url
  import BTree

  /** A list already computed, in front of the rest of a computation that may fail. */
  function Prepend<T>(done: seq<T>, rest: Result<seq<T>, DhtError>): Result<seq<T>, DhtError> {
    if rest.Err? then rest else Ok(done + rest.value)
  }

  lemma PrependNone<T>(rest: Result<seq<T>, DhtError>)
    ensures Prepend([], rest) == rest
  {
    if rest.Ok? {
      assert [] + rest.value == rest.value;
    }
  }

  lemma PrependAll<T>(done: seq<T>)
    ensures Prepend(done, Ok([])) == Ok(done)
  {
    assert done + [] == done;
  }

  lemma PrependOne<T>(done: seq<T>, x: T, rest: Result<seq<T>, DhtError>)
    ensures Prepend(done, Prepend([x], rest)) == Prepend(done + [x], rest)
  {
    if rest.Ok? {
      assert done + ([x] + rest.value) == done + [x] + rest.value;
    }
  }

  // ------------------------------------------------------------------ encoder

  method EncodeVerificationMethods(env: Env, did: string, methods: seq<VerificationMethod>)
    returns (r: Result<seq<EncodedVm>, DhtError>)
    ensures r == EncodeMethods(env, did, methods, {})
  {
    hide EncodeMethod;
    var vms: seq<EncodedVm> := [];
    var fragments := {};
    PrependNone(EncodeMethods(env, did, methods, {}));
    assert methods[0..] == methods;
    for i := 0 to |methods|
      invariant EncodeMethods(env, did, methods, {}) == Prepend(vms, EncodeMethods(env, did, methods[i..], fragments))
    {
      assert methods[i..][1..] == methods[i + 1..];
      match EncodeMethod(env, did, methods[i], fragments) {
        case Err(e) =>
          return Err(e);
        case Ok(vm) =>
          PrependOne(vms, vm, EncodeMethods(env, did, methods[i + 1..], fragments + {vm.fragment}));
          vms := vms + [vm];
          fragments := fragments + {vm.fragment};
      }
    }
    PrependAll(vms);
    return Ok(vms);
  }

  method EncodeExtras(properties: map<string, Json>) returns (r: Result<seq<PropertyItems>, DhtError>)
    ensures r == PlanExtras(properties, BTree.InOrder(properties.Keys))
  {
    hide PropertyStrings, BTree.InOrder, Scalar, AllScalar;
    var names := BTree.InOrder(properties.Keys);
    var extras: seq<PropertyItems> := [];
    PrependNone(PlanExtras(properties, names));
    assert names[0..] == names;
    for i := 0 to |names|
      invariant PlanExtras(properties, names) == Prepend(extras, PlanExtras(properties, names[i..]))
    {
      assert names[i..][1..] == names[i + 1..];
      if names[i] in {"id", "t", "se"} || !Scalar(names[i]) {
        return Err(InvalidDocument);
      }
      match PropertyStrings(properties[names[i]]) {
        case None =>
          return Err(InvalidDocument);
        case Some(items) =>
          if !AllScalar(items) {
            return Err(InvalidDocument);
          }
          PrependOne(extras, PropertyItems(names[i], items), PlanExtras(properties, names[i + 1..]));
          extras := extras + [PropertyItems(names[i], items)];
      }
    }
    PrependAll(extras);
    return Ok(extras);
  }

  method EncodeService(s: Service, did: string) returns (r: Result<ServiceParts, DhtError>)
    ensures r == PlanService(s, did)
  {
    hide BTree.InOrder, PlanExtras;
    var fragment := StripPrefix(s.id, did + "#");
    if fragment.None? || fragment.value == "" || !Scalar(fragment.value) {
      return Err(InvalidDocument);
    }
    if !s.kind.One? || s.kind.value == "" || !Scalar(s.kind.value) {
      return Err(InvalidDocument);
    }
    var endpoints := EndpointStrings(s.endpoint);
    if endpoints.None? || endpoints.value == [] {
      return Err(InvalidDocument);
    }
    for i := 0 to |endpoints.value|
      invariant forall j :: 0 <= j < i ==> Scalar(endpoints.value[j])
    {
      if !Scalar(endpoints.value[i]) {
        return Err(InvalidDocument);
      }
    }
    var extras := EncodeExtras(s.properties);
    if extras.Err? {
      return Err(extras.error);
    }
    return Ok(ServiceParts(fragment.value, s.kind.value, endpoints.value, extras.value));
  }

  method EncodeServices(services: seq<Service>, did: string) returns (r: Result<seq<ServiceParts>, DhtError>)
    ensures r == PlanServices(services, did, {})
  {
    hide PlanService;
    var parts: seq<ServiceParts> := [];
    var seen := {};
    PrependNone(PlanServices(services, did, {}));
    assert services[0..] == services;
    for i := 0 to |services|
      invariant PlanServices(services, did, {}) == Prepend(parts, PlanServices(services[i..], did, seen))
    {
      assert services[i..][1..] == services[i + 1..];
      if services[i].id in seen {
        return Err(InvalidDocument);
      }
      var p := EncodeService(services[i], did);
      if p.Err? {
        return Err(p.error);
      }
      PrependOne(parts, p.value, PlanServices(services[i + 1..], did, seen + {services[i].id}));
      parts := parts + [p.value];
      seen := seen + {services[i].id};
    }
    PrependAll(parts);
    return Ok(parts);
  }

  method EncodeRelationships(vms: seq<EncodedVm>, did: string,
                             lists: seq<ResolvedList>) returns (r: Result<seq<Pair>, DhtError>)
    ensures r == ListPairs(vms, did, lists)
  {
    hide LookupLabels, Join;
    var pairs: seq<Pair> := [];
    PrependNone(ListPairs(vms, did, lists));
    assert lists[0..] == lists;
    for i := 0 to |lists|
      invariant ListPairs(vms, did, lists) == Prepend(pairs, ListPairs(vms, did, lists[i..]))
    {
      assert lists[i..][1..] == lists[i + 1..];
      if lists[i].ids != [] {
        match LookupLabels(vms, did, lists[i].ids) {
          case None =>
            return Err(InvalidDocument);
          case Some(labels) =>
            PrependOne(pairs, Pair(lists[i].code, Join(labels, ',')), ListPairs(vms, did, lists[i + 1..]));
            pairs := pairs + [Pair(lists[i].code, Join(labels, ','))];
        }
      }
    }
    PrependAll(pairs);
    return Ok(pairs);
  }

  method EncodeGateways(gateways: seq<Gateway>) returns (r: Result<seq<string>, DhtError>)
    ensures r == NsTargets(gateways)
  {
    var hosts: seq<string> := [];
    PrependNone(NsTargets(gateways));
    assert gateways[0..] == gateways;
    for i := 0 to |gateways|
      invariant NsTargets(gateways) == Prepend(hosts, NsTargets(gateways[i..]))
    {
      assert gateways[i..][1..] == gateways[i + 1..];
      match gateways[i] {
        case NoHost =>
          return Err(InvalidGatewayUri);
        case IpHost =>
        case DomainHost(host) =>
          PrependOne(hosts, host + ".", NsTargets(gateways[i + 1..]));
          hosts := hosts + [host + "."];
      }
    }
    PrependAll(hosts);
    return Ok(hosts);
  }

  /** Segment every text and push it as a TXT answer, unless its name is not a DNS name. */
  method PushTexts(env: Env, texts: seq<NamedText>) returns (r: Result<seq<Answer>, DhtError>)
    ensures r == if AllNamed(env, texts) then Ok(TextAnswers(texts)) else Err(InvalidDocument)
  {
    hide CharSegments;
    var answers := [];
    for i := 0 to |texts|
      invariant answers == TextAnswers(texts[..i])
      invariant forall j :: 0 <= j < i ==> env.isDnsName(texts[j].name)
    {
      if !env.isDnsName(texts[i].name) {
        return Err(InvalidDocument);
      }
      var strings := CharBoundarySegments(texts[i].text);
      answers := answers + [Txt(texts[i].name, strings)];
    }
    assert texts[..|texts|] == texts;
    return Ok(answers);
  }

  /** Name the root at each gateway host, unless the host is not a DNS name. */
  method PushHosts(env: Env, targets: seq<string>, root: string) returns (r: Result<seq<Answer>, DhtError>)
    ensures r == if AllHosts(env, targets) then Ok(NsAnswers(targets, root)) else Err(InvalidGatewayUri)
  {
    var answers := [];
    for i := 0 to |targets|
      invariant answers == NsAnswers(targets[..i], root)
      invariant forall j :: 0 <= j < i ==> env.isDnsName(targets[j])
    {
      if !env.isDnsName(targets[i]) {
        return Err(InvalidGatewayUri);
      }
      answers := answers + [Ns(root, targets[i])];
    }
    assert targets[..|targets|] == targets;
    return Ok(answers);
  }

  /** The identity method is found, checked against the DID and moved to the front. */
  method EncodeMethodList(env: Env, doc: Document) returns (r: Result<seq<EncodedVm>, DhtError>)
    ensures r == PlanVms(env, doc)
  {
    hide EncodeMethods, Base64Url.Encode;
    var identityKey := DecodeIdentityKey(env, doc.id);
    if identityKey.Err? {
      return Err(identityKey.error);
    }
    if doc.propertySet != map[] || doc.publicKey != [] {
      return Err(InvalidDocument);
    }
    var encoded := EncodeVerificationMethods(env, doc.id.ToString(), doc.verificationMethod);
    if encoded.Err? {
      return encoded;
    }
    var vms := encoded.value;
    var position := IdentityPosition(vms);
    if position.None? || vms[position.value].keyBase64 != Base64Url.Encode(identityKey.value) {
      return Err(InvalidDocument);
    }
    return Ok(MoveToFront(vms, position.value));
  }

  method EncodePlan(env: Env, doc: Document) returns (r: Result<Plan, DhtError>)
    ensures r == MakePlan(env, doc)
  {
    hide PlanVms, PlanServices, ListPairs, ResolveLists, ControllerStrings, MandatoryListsHold;
    var did := doc.id.ToString();
    var vms := EncodeMethodList(env, doc);
    if vms.Err? {
      return Err(vms.error);
    }
    var controllers := ControllerStrings(doc.controller);
    if controllers.Err? {
      return Err(controllers.error);
    }
    var first := vms.value[0].controller;
    if first != did && !(controllers.value.Some? && first in controllers.value.value) {
      return Err(InvalidDocument);
    }
    for i := 0 to |doc.alsoKnownAs|
      invariant forall j :: 0 <= j < i ==> Scalar(doc.alsoKnownAs[j])
    {
      if !Scalar(doc.alsoKnownAs[i]) {
        return Err(InvalidDocument);
      }
    }
    var services := EncodeServices(doc.service, did);
    if services.Err? {
      return Err(services.error);
    }
    var lists := ResolveLists(doc.relationships, did);
    if lists.Err? {
      return Err(lists.error);
    }
    if !MandatoryListsHold(lists.value, did + "#0") {
      return Err(InvalidDocument);
    }
    var pairs := EncodeRelationships(vms.value, did, lists.value);
    if pairs.Err? {
      return Err(pairs.error);
    }
    return Ok(Plan(doc.alsoKnownAs, controllers.value, vms.value, services.value, lists.value, pairs.value));
  }

  method EncodeDocument(env: Env, doc: Document, types: seq<u64>,
                        gateways: seq<Gateway>) returns (r: Result<seq<Answer>, DhtError>)
    ensures r == EncodeAnswers(env, doc, types, gateways)
  {
    hide MakePlan, PlanTexts, TextAnswers, NsAnswers, NsTargets, AllNamed, AllHosts;
    var plan := EncodePlan(env, doc);
    if plan.Err? {
      return Err(plan.error);
    }
    var hosts := EncodeGateways(gateways);
    if hosts.Err? {
      return Err(hosts.error);
    }
    var texts := PushTexts(env, PlanTexts(plan.value, doc, types));
    if texts.Err? {
      return Err(texts.error);
    }
    var names := PushHosts(env, hosts.value, "_did." + doc.id.id + ".");
    if names.Err? {
      return Err(names.error);
    }
    return Ok(texts.value + names.value);
  }

  // ------------------------------------------------------------------ decoder

  method ReadTxtRecords(answers: seq<Answer>) returns (r: Result<seq<TxtRecord>, DhtError>)
    ensures r == TxtRecords(answers)
  {
    hide FromUtf8, LabelOf;
    var records: seq<TxtRecord> := [];
    PrependNone(TxtRecords(answers));
    assert answers[0..] == answers;
    for i := 0 to |answers|
      invariant TxtRecords(answers) == Prepend(records, TxtRecords(answers[i..]))
    {
      assert answers[i..][1..] == answers[i + 1..];
      if answers[i].Txt? {
        match FromUtf8(Concat(answers[i].strings)) {
          case None =>
            return Err(InvalidDocument);
          case Some(data) =>
            PrependOne(records, TxtRecord(LabelOf(answers[i].name), data), TxtRecords(answers[i + 1..]));
            records := records + [TxtRecord(LabelOf(answers[i].name), data)];
        }
      }
    }
    PrependAll(records);
    return Ok(records);
  }

  method ApplyRootRecords(roots: seq<string>, ids: map<string, string>) returns (r: Relationships)
    ensures r == ApplyRoots(NO_RELATIONSHIPS, roots, ids)
  {
    hide ApplyRoot;
    r := NO_RELATIONSHIPS;
    assert roots[0..] == roots;
    for i := 0 to |roots|
      invariant ApplyRoots(NO_RELATIONSHIPS, roots, ids) == ApplyRoots(r, roots[i..], ids)
    {
      assert roots[i..][1..] == roots[i + 1..];
      r := ApplyRoot(r, roots[i], ids);
    }
  }

  method DecodeDocument(env: Env, did: Did, answers: seq<Answer>) returns (r: Result<Decoded, DhtError>)
    ensures r == DecodeAnswers(env, did, answers)
  {
    hide TxtRecords, DecodeMethod, DecodeService, DecodeTypes, ApplyRoots, Split, Did.ToString;
    if did.name != "dht" {
      return Err(MethodNotSupported(did.name));
    }
    var didText := did.ToString();
    var records := ReadTxtRecords(answers);
    if records.Err? {
      return Err(records.error);
    }
    var aka: seq<string>, controller: Option<OneOrMany> := [], None;
    var methods: seq<VerificationMethod>, services: seq<Service> := [], [];
    var ids: map<string, string>, roots: seq<string>, types: Option<seq<u64>> := map[], [], None;
    assert records.value[0..] == records.value;
    for i := 0 to |records.value|
      invariant ApplyRecords(env, didText, START, records.value)
             == ApplyRecords(env, didText, Progress(aka, controller, methods, services, ids, roots, types),
                             records.value[i..])
    {
      var record := records.value[i];
      assert records.value[i..][1..] == records.value[i + 1..];
      if StartsWith(record.id, "aka") {
        aka := Split(record.data, ',');
      } else if StartsWith(record.id, "cnt") {
        controller := Some(ControllerOf(record.data));
      } else if StartsWith(record.id, "k") {
        match DecodeMethod(env, didText, record.id, record.data) {
          case Err(e) =>
            return Err(e);
          case Ok(m) =>
            methods := methods + [m];
            ids := ids[record.id := m.id];
        }
      } else if StartsWith(record.id, "s") {
        match DecodeService(didText, record.data) {
          case Err(e) =>
            return Err(e);
          case Ok(s) =>
            services := services + [s];
        }
      } else if StartsWith(record.id, "typ") {
        match DecodeTypes(record.data) {
          case Err(e) =>
            return Err(e);
          case Ok(ts) =>
            types := Some(ts);
        }
      } else if StartsWith(record.id, "did") {
        roots := roots + [record.data];
      }
    }
    var relationships := ApplyRootRecords(roots, ids);
    var document := Document(did, aka, controller, methods, relationships, services, map[], []);
    if !Typed(env, document) {
      return Err(InvalidDocument);
    }
    return Ok(Decoded(document, types));
  }
}

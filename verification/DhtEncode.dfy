/** The `did:dht` encoder: a DID document becomes a list of DNS answers, or is rejected because
    the wire cannot represent it. */
module DhtEncode {
  import opened Wrappers
  import opened Text
  import opened Bytes
  import opened DidDocument
  import opened DhtRecords
  import Base64Url
  import BTree

  // ------------------------------------------------------------------ verification methods

  datatype EncodedVm = EncodedVm(
    fragment: string,
    keyType: nat,
    keyBase64: string,
    thumbprint: string,
    algorithm: Option<string>,
    controller: string)

  function DefaultAlgorithm(keyType: nat): string {
    if keyType == 0 then "EdDSA"
    else if keyType == 1 then "ES256K"
    else if keyType == 2 then "ES256"
    else "ECDH-ES+A256KW"
  }

  function WireBytes(coordinate: Option<bytes>, expected: nat): (r: Result<bytes, DhtError>)
    ensures r.Ok? ==> coordinate == Some(r.value) && |r.value| == expected
  {
    match coordinate
    case None => Err(InvalidDocument)
    case Some(raw) => if |raw| == expected then Ok(raw) else Err(InvalidDocument)
  }

  datatype WireKey = WireKey(keyType: nat, raw: bytes)

  /** The name of a key's curve, or of its family when it names no curve. */
  function CurveName(m: KeyMaterial): string {
    m.crv.GetOr(m.kty.GetOr("unknown"))
  }

  /** Registered key type and wire bytes of a public key. */
  function ToWireKey(m: KeyMaterial): (r: Result<WireKey, DhtError>)
    ensures r.Ok? ==> r.value.keyType <= 3
    ensures r.Ok? ==> |r.value.raw| == if r.value.keyType in {1, 2} then EC_KEY_BYTES else OKP_KEY_BYTES
  {
    var curve := CurveName(m);
    if curve == "Ed25519" then
      var raw :- WireBytes(m.x, 32);
      Ok(WireKey(0, raw))
    else if curve == "X25519" then
      var raw :- WireBytes(m.x, 32);
      Ok(WireKey(3, raw))
    else if curve == "secp256k1" || curve == "P-256" || curve == "secp256r1" then
      var x :- WireBytes(m.x, 32);
      var y :- WireBytes(m.y, 32);
      Ok(WireKey(if curve == "secp256k1" then 1 else 2, Compress(x, y)))
    else Err(InvalidPublicKeyType(curve))
  }

  function EncodeMethod(env: Env, did: string, m: VerificationMethod, seen: set<string>): Result<EncodedVm, DhtError> {
    match StripPrefix(m.id, did + "#")
    case None => Err(InvalidDocument)
    case Some(fragment) =>
      if fragment == "" || !Scalar(fragment) || fragment in seen then Err(InvalidDocument)
      else if m.kind != "JsonWebKey" then Err(InvalidDocument)
      else if m.properties.Keys != {"publicKeyJwk"} then Err(InvalidDocument)
      else if m.properties["publicKeyJwk"].JsonProperty? then Err(InvalidDocument)
      else
        var jwk := m.properties["publicKeyJwk"].jwk;
        var wire :- ToWireKey(jwk.material);
        match env.thumbprint(jwk.material, jwk.rest)
        case None => Err(InvalidDocument)
        case Some(thumbprint) =>
          var algorithm := if jwk.alg == Some(DefaultAlgorithm(wire.keyType)) then None else jwk.alg;
          if algorithm.Some? && !Scalar(algorithm.value) then Err(InvalidDocument)
          else if !Scalar(m.controller) then Err(InvalidDocument)
          else Ok(EncodedVm(fragment, wire.keyType, Base64Url.Encode(wire.raw), thumbprint, algorithm, m.controller))
  }

  function EncodeMethods(env: Env, did: string, methods: seq<VerificationMethod>, seen: set<string>):
    Result<seq<EncodedVm>, DhtError>
  {
    if methods == [] then Ok([])
    else
      var vm :- EncodeMethod(env, did, methods[0], seen);
      var rest :- EncodeMethods(env, did, methods[1..], seen + {vm.fragment});
      Ok([vm] + rest)
  }

  function IdentityPosition(vms: seq<EncodedVm>): (r: Option<nat>)
    ensures r.Some? ==> r.value < |vms| && vms[r.value].fragment == "0"
    ensures r.Some? ==> forall i :: 0 <= i < r.value ==> vms[i].fragment != "0"
    ensures r.None? ==> forall i :: 0 <= i < |vms| ==> vms[i].fragment != "0"
  {
    if vms == [] then None
    else if vms[0].fragment == "0" then Some(0)
    else
      match IdentityPosition(vms[1..])
      case None => None
      case Some(i) => Some(i + 1)
  }

  function MoveToFront<T>(items: seq<T>, i: nat): (r: seq<T>)
    requires i < |items|
    ensures |r| == |items|
    ensures multiset(r) == multiset(items)
  {
    assert items == items[..i] + [items[i]] + items[i + 1..];
    [items[i]] + items[..i] + items[i + 1..]
  }

  function VmPairs(vm: EncodedVm, did: string): seq<Pair> {
    (if vm.fragment != "0" && vm.thumbprint != vm.fragment then [Pair("id", vm.fragment)] else [])
    + [Pair("t", Decimal(vm.keyType)), Pair("k", vm.keyBase64)]
    + (if vm.algorithm.Some? then [Pair("a", vm.algorithm.value)] else [])
    + (if vm.controller != did then [Pair("c", vm.controller)] else [])
  }

  // ------------------------------------------------------------------ services

  datatype PropertyItems = PropertyItems(name: string, items: seq<string>)

  datatype ServiceParts =
    ServiceParts(fragment: string, kind: string, endpoints: seq<string>, extras: seq<PropertyItems>)

  /** The strings of a JSON array, if it holds nothing else. */
  function ArrayStrings(items: seq<Json>): (r: Option<seq<string>>)
    ensures r.Some? ==> |r.value| == |items|
    ensures r.Some? ==> forall i :: 0 <= i < |items| ==> items[i] == JString(r.value[i])
  {
    if items == [] then Some([])
    else if !items[0].JString? then None
    else
      var rest :- ArrayStrings(items[1..]);
      Some([items[0].s] + rest)
  }

  function EndpointStrings(endpoint: Option<Json>): Option<seq<string>> {
    match endpoint
    case None => Some([])
    case Some(JNull) => Some([])
    case Some(JString(single)) => Some([single])
    case Some(JArray(items)) => ArrayStrings(items)
    case Some(_) => None
  }

  /** The items of a service property: a string, or a non-empty array of strings. */
  function PropertyStrings(value: Json): (r: Option<seq<string>>)
    ensures r.Some? ==> r.value != []
  {
    match value
    case JString(single) => Some([single])
    case JArray(items) => if items == [] then None else ArrayStrings(items)
    case _ => None
  }

  function PlanExtras(properties: map<string, Json>, names: seq<string>): Result<seq<PropertyItems>, DhtError>
    requires forall i :: 0 <= i < |names| ==> names[i] in properties
  {
    if names == [] then Ok([])
    else if names[0] in {"id", "t", "se"} || !Scalar(names[0]) then Err(InvalidDocument)
    else
      match PropertyStrings(properties[names[0]])
      case None => Err(InvalidDocument)
      case Some(items) =>
        if !AllScalar(items) then Err(InvalidDocument)
        else
          var rest :- PlanExtras(properties, names[1..]);
          Ok([PropertyItems(names[0], items)] + rest)
  }

  function PlanService(s: Service, did: string): Result<ServiceParts, DhtError> {
    match StripPrefix(s.id, did + "#")
    case None => Err(InvalidDocument)
    case Some(fragment) =>
      if fragment == "" || !Scalar(fragment) then Err(InvalidDocument)
      else if !s.kind.One? || s.kind.value == "" || !Scalar(s.kind.value) then Err(InvalidDocument)
      else
        match EndpointStrings(s.endpoint)
        case None => Err(InvalidDocument)
        case Some(endpoints) =>
          if endpoints == [] || !AllScalar(endpoints) then Err(InvalidDocument)
          else
            var extras :- PlanExtras(s.properties, BTree.InOrder(s.properties.Keys));
            Ok(ServiceParts(fragment, s.kind.value, endpoints, extras))
  }

  function ExtraPairs(extras: seq<PropertyItems>): seq<Pair> {
    seq(|extras|, i requires 0 <= i < |extras| => Pair(extras[i].name, Join(extras[i].items, ',')))
  }

  function ServicePairs(p: ServiceParts): seq<Pair> {
    [Pair("id", p.fragment), Pair("t", p.kind), Pair("se", Join(p.endpoints, ','))] + ExtraPairs(p.extras)
  }

  function PlanServices(services: seq<Service>, did: string, seen: set<string>): Result<seq<ServiceParts>, DhtError> {
    if services == [] then Ok([])
    else if services[0].id in seen then Err(InvalidDocument)
    else
      var parts :- PlanService(services[0], did);
      var rest :- PlanServices(services[1..], did, seen + {services[0].id});
      Ok([parts] + rest)
  }

  // ------------------------------------------------------------------ relationships

  function ResolveAll(entries: seq<Relationship>, did: string): (r: Result<seq<string>, DhtError>)
    ensures r.Ok? ==> |r.value| == |entries|
    ensures r.Ok? ==> forall i :: 0 <= i < |entries| ==>
                                    entries[i].Referenced? && r.value[i] == entries[i].reference.Resolve(did)
  {
    if entries == [] then Ok([])
    else if entries[0].Embedded? then Err(InvalidDocument)
    else
      var rest :- ResolveAll(entries[1..], did);
      Ok([entries[0].reference.Resolve(did)] + rest)
  }

  /** One relationship list: its wire code, whether `#0` must be in it, and the method ids it names. */
  datatype ResolvedList = ResolvedList(code: string, mandatory: bool, ids: seq<string>)

  function ResolveLists(r: Relationships, did: string): Result<seq<ResolvedList>, DhtError> {
    var auth :- ResolveAll(r.authentication, did);
    var asm :- ResolveAll(r.assertionMethod, did);
    var inv :- ResolveAll(r.capabilityInvocation, did);
    var del :- ResolveAll(r.capabilityDelegation, did);
    var agm :- ResolveAll(r.keyAgreement, did);
    Ok([ResolvedList("auth", true, auth), ResolvedList("asm", true, asm), ResolvedList("inv", true, inv),
        ResolvedList("del", true, del), ResolvedList("agm", false, agm)])
  }

  function VmLabel(i: nat): string {
    "k" + Decimal(i)
  }

  function ServiceLabel(i: nat): string {
    "s" + Decimal(i)
  }

  /** Record label of the method with a given id, from position `start` on. */
  function LookupLabel(vms: seq<EncodedVm>, did: string, id: string, start: nat): Option<string> {
    if vms == [] then None
    else if did + "#" + vms[0].fragment == id then Some(VmLabel(start))
    else LookupLabel(vms[1..], did, id, start + 1)
  }

  function LookupLabels(vms: seq<EncodedVm>, did: string, ids: seq<string>): (r: Option<seq<string>>)
    ensures r.Some? ==> |r.value| == |ids|
    ensures r.Some? ==> forall i :: 0 <= i < |ids| ==> LookupLabel(vms, did, ids[i], 0) == Some(r.value[i])
  {
    if ids == [] then Some([])
    else
      var label0 :- LookupLabel(vms, did, ids[0], 0);
      var rest :- LookupLabels(vms, did, ids[1..]);
      Some([label0] + rest)
  }

  /** The pairs of the non-empty lists; a list that names no known method is rejected. */
  function ListPairs(vms: seq<EncodedVm>, did: string, lists: seq<ResolvedList>): Result<seq<Pair>, DhtError> {
    if lists == [] then Ok([])
    else if lists[0].ids == [] then ListPairs(vms, did, lists[1..])
    else
      match LookupLabels(vms, did, lists[0].ids)
      case None => Err(InvalidDocument)
      case Some(labels) =>
        var rest :- ListPairs(vms, did, lists[1..]);
        Ok([Pair(lists[0].code, Join(labels, ','))] + rest)
  }

  predicate MandatoryListsHold(lists: seq<ResolvedList>, identity: string) {
    forall i :: 0 <= i < |lists| && lists[i].mandatory ==> identity in lists[i].ids
  }

  function Labels(count: nat, label0: nat -> string): seq<string> {
    seq(count, i requires 0 <= i < count => label0(i))
  }

  function RootPairs(vmCount: nat, lists: seq<Pair>, serviceCount: nat): seq<Pair> {
    [Pair("v", "0"), Pair("vm", Join(Labels(vmCount, VmLabel), ','))]
    + lists
    + (if serviceCount > 0 then [Pair("svc", Join(Labels(serviceCount, ServiceLabel), ','))] else [])
  }

  // ------------------------------------------------------------------ the document

  function ControllerStrings(c: Option<OneOrMany>): Result<Option<seq<string>>, DhtError> {
    match c
    case None => Ok(None)
    case Some(One(value)) => if Scalar(value) then Ok(Some([value])) else Err(InvalidDocument)
    case Some(Many(values)) => if AllScalar(values) then Ok(Some(values)) else Err(InvalidDocument)
  }

  datatype NamedText = NamedText(name: string, text: string)

  function AkaTexts(aka: seq<string>): seq<NamedText> {
    if aka == [] then [] else [NamedText("_aka._did.", Join(aka, ','))]
  }

  function ControllerTexts(controllers: Option<seq<string>>): seq<NamedText> {
    match controllers
    case None => []
    case Some(cs) => [NamedText("_cnt._did.", Join(cs, ','))]
  }

  function VmTexts(vms: seq<EncodedVm>, did: string, start: nat): seq<NamedText> {
    if vms == [] then []
    else
      [NamedText("_" + VmLabel(start) + "._did.", PairsText(VmPairs(vms[0], did)))]
      + VmTexts(vms[1..], did, start + 1)
  }

  function ServiceTexts(services: seq<ServiceParts>, start: nat): seq<NamedText> {
    if services == [] then []
    else [NamedText("_" + ServiceLabel(start) + "._did.", PairsText(ServicePairs(services[0])))]
         + ServiceTexts(services[1..], start + 1)
  }

  function Decimals(ns: seq<u64>): seq<string> {
    seq(|ns|, i requires 0 <= i < |ns| => Decimal(ns[i]))
  }

  function TypeTexts(types: seq<u64>): seq<NamedText> {
    if types == [] then [] else [NamedText("_typ._did.", PairsText([Pair("id", Join(Decimals(types), ','))]))]
  }

  /** Everything the wire will say, before it is spelled out as text. */
  datatype Plan = Plan(
    aka: seq<string>,
    controllers: Option<seq<string>>,
    vms: seq<EncodedVm>,
    services: seq<ServiceParts>,
    lists: seq<ResolvedList>,
    listPairs: seq<Pair>)

  function PlanVms(env: Env, doc: Document): (r: Result<seq<EncodedVm>, DhtError>)
    ensures r.Ok? ==> r.value != [] && r.value[0].fragment == "0"
  {
    var identityKey :- DecodeIdentityKey(env, doc.id);
    if doc.propertySet != map[] || doc.publicKey != [] then Err(InvalidDocument)
    else
      var vms :- EncodeMethods(env, doc.id.ToString(), doc.verificationMethod, {});
      match IdentityPosition(vms)
      case None => Err(InvalidDocument)
      case Some(i) =>
        if vms[i].keyBase64 != Base64Url.Encode(identityKey) then Err(InvalidDocument)
        else Ok(MoveToFront(vms, i))
  }

  function MakePlan(env: Env, doc: Document): Result<Plan, DhtError> {
    var did := doc.id.ToString();
    var vms :- PlanVms(env, doc);
    var controllers :- ControllerStrings(doc.controller);
    if vms[0].controller != did && !(controllers.Some? && vms[0].controller in controllers.value) then
      Err(InvalidDocument)
    else if !AllScalar(doc.alsoKnownAs) then Err(InvalidDocument)
    else
      var services :- PlanServices(doc.service, did, {});
      var lists :- ResolveLists(doc.relationships, did);
      if !MandatoryListsHold(lists, did + "#0") then Err(InvalidDocument)
      else
        var listPairs :- ListPairs(vms, did, lists);
        Ok(Plan(doc.alsoKnownAs, controllers, vms, services, lists, listPairs))
  }

  function PlanTexts(p: Plan, doc: Document, types: seq<u64>): seq<NamedText> {
    AkaTexts(p.aka)
    + ControllerTexts(p.controllers)
    + VmTexts(p.vms, doc.id.ToString(), 0)
    + ServiceTexts(p.services, 0)
    + [NamedText("_did." + doc.id.id + ".", PairsText(RootPairs(|p.vms|, p.listPairs, |p.services|)))]
    + TypeTexts(types)
  }

  /** A gateway URL by what stands in its host position. */
  datatype Gateway = NoHost | DomainHost(host: string) | IpHost

  function NsTargets(gateways: seq<Gateway>): Result<seq<string>, DhtError> {
    if gateways == [] then Ok([])
    else
      match gateways[0]
      case NoHost => Err(InvalidGatewayUri)
      case IpHost => NsTargets(gateways[1..])
      case DomainHost(host) =>
        var rest :- NsTargets(gateways[1..]);
        Ok([host + "."] + rest)
  }

  function TextAnswers(texts: seq<NamedText>): seq<Answer> {
    seq(|texts|, i requires 0 <= i < |texts| => TxtAnswer(texts[i].name, texts[i].text))
  }

  function NsAnswers(targets: seq<string>, root: string): seq<Answer> {
    seq(|targets|, i requires 0 <= i < |targets| => Ns(root, targets[i]))
  }

  /** Every record name is one that the DNS library accepts. */
  predicate AllNamed(env: Env, texts: seq<NamedText>) {
    forall i :: 0 <= i < |texts| ==> env.isDnsName(texts[i].name)
  }

  predicate AllHosts(env: Env, targets: seq<string>) {
    forall i :: 0 <= i < |targets| ==> env.isDnsName(targets[i])
  }

  function EncodeAnswers(env: Env, doc: Document, types: seq<u64>,
                         gateways: seq<Gateway>): Result<seq<Answer>, DhtError> {
    var plan :- MakePlan(env, doc);
    var targets :- NsTargets(gateways);
    var texts := PlanTexts(plan, doc, types);
    if !AllNamed(env, texts) then Err(InvalidDocument)
    else if !AllHosts(env, targets) then Err(InvalidGatewayUri)
    else Ok(TextAnswers(texts) + NsAnswers(targets, "_did." + doc.id.id + "."))
  }
}

/** Documents and packets on which the codec does not keep what one might expect of it: each is accepted,
    for every identity and whatever the libraries behind the codec compute, and each shows one failure. */
module DhtExamples {
  import opened Wrappers
  import opened Text
  import opened Bytes
  import opened DidDocument
  import opened DhtRecords
  import opened DhtEncode
  import opened DhtDecode
  import opened DhtNormal
  import opened DhtRoundTrip
  import opened DhtRelationships
  import opened DhtTheorems
  import opened DhtFixpoint
  import opened DhtDocuments
  import opened DhtRepublish
  import opened DhtIdentity
  import Base64Url
  import BTree

  /** An identity that can be published and whose identifiers are valid. */
  predicate Publishes(env: Env, did: Did, key: bytes, gateways: seq<Gateway>) {
    && Identity(env, did, key) && UsualNames(env, did) && UsableGateways(env, gateways)
    && env.isDid(did.ToString()) && env.isDidUrl(did.ToString() + "#0")
  }

  // ------------------------------------------------------------------ libraries for which all of this happens

  const ZEROS: bytes := seq(32, _ => 0)

  /** A toy decompression: the second coordinate is the parity byte. */
  function ToyPoint(b: bytes): Option<(bytes, bytes)> {
    if |b| == 33 then Some((b[1..], seq(31, _ => 0) + [if b[0] % 2 == 0 then 0 else 1])) else None
  }

  const TOY: Env := Env(
    text => text != "", text => true, text => true,
    (material, rest) => Some(CurveName(material)),
    key => true, (curve, b) => ToyPoint(b), id => Some(ZEROS), name => true)

  const TOY_DID: Did := Did("dht", "x")

  lemma ToyCurvesSound()
    ensures SoundCurves(TOY)
  {
    forall c: Curve, b: bytes
      ensures DecompressStable(TOY, c, b)
    {
      if |b| == 33 {
        var (x, y) := ToyPoint(b).value;
        assert Compress(x, y)[1..] == x;
      }
    }
  }

  lemma ToyPublishes()
    ensures Publishes(TOY, TOY_DID, ZEROS, [])
  {
    hide VmLabel, ServiceLabel;
    assert TOY_DID.ToString() == "did:dht:x";
    assert NsTargets([]) == Ok([]);
  }

  lemma ToySpellings()
    ensures TwoSpellings(TOY, ZEROS, ZEROS, "secp256r1", "P-256")
  {
    var point := Compress(ZEROS, ZEROS);
    assert point[1..] == ZEROS;
    assert seq(31, _ => 0) + [0] == ZEROS;
  }

  /** The hypotheses of the examples hold together. */
  lemma HypothesesHold()
    ensures SoundCurves(TOY) && Publishes(TOY, TOY_DID, ZEROS, []) && !TOY.isDid("")
    ensures TwoSpellings(TOY, ZEROS, ZEROS, "secp256r1", "P-256") && SecondKey(TOY, ZEROS)
    ensures TOY.isDidUrl(TOY_DID.ToString() + "#secp256r1") && TOY.isDidUrl(TOY_DID.ToString() + "#P-256")
    ensures TOY.isDidUrl(TOY_DID.ToString() + "#a") && TOY.isUri(TOY_DID.ToString() + "#s")
  {
    hide SoundCurves, Publishes, TwoSpellings, Did.ToString;
    ToyCurvesSound();
    ToyPublishes();
    ToySpellings();
  }

  // ------------------------------------------------------------------ services

  /** A service with one endpoint. */
  function OneService(did: string, endpoint: string, properties: map<string, Json>): Service {
    Service(did + "#s", One("x"), Some(JString(endpoint)), properties)
  }

  lemma OneServicePlans(did: string, endpoint: string, properties: map<string, Json>)
    requires Scalar(endpoint) && forall k :: k in properties ==> ExtraWritten(properties, k)
    ensures PlanService(OneService(did, endpoint, properties), did).Ok?
    ensures PlanServices([OneService(did, endpoint, properties)], did, {}).Ok?
  {
    hide BTree.InOrder, PropertyStrings;
    var s := OneService(did, endpoint, properties);
    assert s.id[|did + "#"|..] == "s";
    var names := BTree.InOrder(properties.Keys);
    forall i | 0 <= i < |names|
      ensures ExtraWritten(properties, names[i])
    {
      assert names[i] in names;
    }
    PlanExtrasOk(properties, names);
    assert [s][1..] == [];
  }

  function ServiceDocument(did: Did, key: bytes, service: Service): Document {
    SmallDocument(did, None, [IdentityMethod(did, key)], [], [service])
  }

  /** A document of the identity key and one service is accepted, and its methods are read back as they were. */
  lemma ServiceDocumentAccepted(env: Env, did: Did, key: bytes, service: Service, types: seq<u64>,
                                gateways: seq<Gateway>)
    requires Publishes(env, did, key, gateways) && env.isUri(service.id)
    requires PlanServices([service], did.ToString(), {}).Ok?
    ensures var doc := ServiceDocument(did, key, service);
            && Typed(env, doc) && EncodeAnswers(env, doc, types, gateways).Ok?
            && AcceptedMethods(env, doc) && MethodsNamable(env, doc)
            && (Readable(env, doc) <==> EndpointStrings(service.endpoint) != Some([""]))
  {
    hide MakePlan, EncodeAnswers, EncodeMethod, UsualNames, UsableGateways, NormalMethod, KeyReadable, CanonicalMethod,
      WireFragment, PlanServices, Did.ToString, EndpointStrings;
    var doc := ServiceDocument(did, key, service);
    var text := did.ToString();
    assert text + "#" + "0" == text + "#0";
    IdentityPlans(env, did, key, None, [service]);
    SmallEncodes(env, doc, types, gateways);
    IdentityReads(env, did, key);
    assert TypedMethod(env, doc.verificationMethod[0]);
    assert Scalar("0");
    assert MethodReadable(env, text, doc.verificationMethod[0]);
    assert doc.service[0] == service;
  }

  lemma OnlyService(did: Did, key: bytes, service: Service)
    ensures KindsWritable(ServiceDocument(did, key, service)) <==> KindWritable(service)
    ensures EndpointsListed(ServiceDocument(did, key, service)) <==> EndpointListed(service)
  {
    hide KindWritable, EndpointListed;
    assert ServiceDocument(did, key, service).service[0] == service;
  }

  /** A service whose only endpoint is the empty text is published and cannot be read. */
  lemma EmptyEndpointLost(env: Env, did: Did, key: bytes, types: seq<u64>, gateways: seq<Gateway>)
    requires Publishes(env, did, key, gateways) && env.isUri(did.ToString() + "#s")
    ensures var doc := ServiceDocument(did, key, OneService(did.ToString(), "", map[]));
            && EncodeAnswers(env, doc, types, gateways).Ok?
            && DecodeAnswers(env, did, EncodeAnswers(env, doc, types, gateways).value).Err?
  {
    hide EncodeAnswers, DecodeAnswers, Publishes, PlanServices, Did.ToString, Typed, Readable, MethodsNamable;
    var s := OneService(did.ToString(), "", map[]);
    OneServicePlans(did.ToString(), "", map[]);
    ServiceDocumentAccepted(env, did, key, s, types, gateways);
    ReadableIff(env, ServiceDocument(did, key, s), types, gateways);
  }

  /** A document with an empty list of controllers is published and cannot be read. */
  lemma EmptyControllersLost(env: Env, did: Did, key: bytes, types: seq<u64>, gateways: seq<Gateway>)
    requires Publishes(env, did, key, gateways) && !env.isDid("")
    ensures var doc := SmallDocument(did, Some(Many([])), [IdentityMethod(did, key)], [], []);
            && EncodeAnswers(env, doc, types, gateways).Ok?
            && DecodeAnswers(env, did, EncodeAnswers(env, doc, types, gateways).value).Err?
  {
    hide MakePlan, EncodeAnswers, DecodeAnswers, UsualNames, UsableGateways, Did.ToString, EncodeMethod, MethodReadable;
    var doc := SmallDocument(did, Some(Many([])), [IdentityMethod(did, key)], [], []);
    assert did.ToString() + "#" + "0" == did.ToString() + "#0";
    IdentityPlans(env, did, key, Some(Many([])), []);
    SmallEncodes(env, doc, types, gateways);
    assert TypedMethod(env, doc.verificationMethod[0]);
    EmptyTextIsLost(env, doc, types, gateways, 0);
  }

  const TWO_TYPES := map["type" := JArray([JString("a"), JString("b")])]

  lemma TwoTypesWritten(did: string)
    ensures PlanServices([OneService(did, "e", TWO_TYPES)], did, {}).Ok?
    ensures !KindWritable(OneService(did, "e", TWO_TYPES))
  {
    StringsOfItems(TWO_TYPES["type"].items, ["a", "b"]);
    assert ExtraWritten(TWO_TYPES, "type");
    OneServicePlans(did, "e", TWO_TYPES);
  }

  /** A service with a property `type` of two strings is read back with two types, and then cannot be
      published again. */
  lemma TwoTypesNotRepublished(env: Env, did: Did, key: bytes, types: seq<u64>, gateways: seq<Gateway>)
    requires SoundCurves(env) && Publishes(env, did, key, gateways) && env.isUri(did.ToString() + "#s")
    ensures var doc := ServiceDocument(did, key, OneService(did.ToString(), "e", TWO_TYPES));
            && EncodeAnswers(env, doc, types, gateways).Ok?
            && var r := DecodeAnswers(env, did, EncodeAnswers(env, doc, types, gateways).value);
            r.Ok? && EncodeAnswers(env, r.value.document, types, gateways).Err?
  {
    hide EncodeAnswers, DecodeAnswers, Publishes, PlanServices, Did.ToString, Typed, Readable, MethodsNamable,
      SoundCurves, KindWritable, KindsWritable, AcceptedMethods;
    var s := OneService(did.ToString(), "e", TWO_TYPES);
    var doc := ServiceDocument(did, key, s);
    TwoTypesWritten(did.ToString());
    ServiceDocumentAccepted(env, did, key, s, types, gateways);
    OnlyService(did, key, s);
    ReadableIff(env, doc, types, gateways);
    RepublishableIff(env, doc, types, gateways);
  }

  const ENDPOINT_X := map["serviceEndpoint" := JString("x")]

  lemma EndpointXWritten(did: string)
    ensures PlanServices([OneService(did, "e", ENDPOINT_X)], did, {}).Ok?
    ensures KindWritable(OneService(did, "e", ENDPOINT_X)) && !EndpointListed(OneService(did, "e", ENDPOINT_X))
  {
    assert PropertyStrings(ENDPOINT_X["serviceEndpoint"]) == Some(["x"]);
    assert ExtraWritten(ENDPOINT_X, "serviceEndpoint");
    OneServicePlans(did, "e", ENDPOINT_X);
  }

  /** A packet whose service record carries `serviceEndpoint=x`: it decodes to a document that can be
      published, and the packet published for that document decodes to another one. */
  lemma EndpointPropertyNotFixed(env: Env, did: Did, key: bytes, types: seq<u64>, gateways: seq<Gateway>)
    requires SoundCurves(env) && Publishes(env, did, key, gateways) && env.isUri(did.ToString() + "#s")
    ensures var doc := ServiceDocument(did, key, OneService(did.ToString(), "e", ENDPOINT_X));
            && EncodeAnswers(env, doc, types, gateways).Ok?
            && var r := DecodeAnswers(env, did, EncodeAnswers(env, doc, types, gateways).value);
            && r.Ok? && EncodeAnswers(env, r.value.document, types, gateways).Ok?
            && DecodeAnswers(env, did, EncodeAnswers(env, r.value.document, types, gateways).value) != r
  {
    hide EncodeAnswers, DecodeAnswers, Publishes, PlanServices, Did.ToString, Typed, Readable, MethodsNamable,
      SoundCurves, KindWritable, KindsWritable, AcceptedMethods, EndpointListed, EndpointsListed;
    var s := OneService(did.ToString(), "e", ENDPOINT_X);
    var doc := ServiceDocument(did, key, s);
    EndpointXWritten(did.ToString());
    ServiceDocumentAccepted(env, did, key, s, types, gateways);
    OnlyService(did, key, s);
    ReadableIff(env, doc, types, gateways);
    RepublishableIff(env, doc, types, gateways);
    DecodeAfterEncodeIdempotent(env, doc, types, gateways);
  }

  // ------------------------------------------------------------------ the identity key

  /** The identity method may spell the identity key as an X25519 key. */
  lemma IdentityAsX25519(env: Env, did: Did, key: bytes, types: seq<u64>, gateways: seq<Gateway>)
    requires DecodeIdentityKey(env, did) == Ok(key) && Scalar(did.ToString())
    requires env.thumbprint(OkpMaterial("X25519", key), map[]).Some?
    requires UsualNames(env, did) && UsableGateways(env, gateways)
    ensures var doc := SmallDocument(did, None, [PlainMethod(did.ToString(), "0", OkpMaterial("X25519", key))], [], []);
            && EncodeAnswers(env, doc, types, gateways).Ok?
            && PlanVms(env, doc).Ok? && PlanVms(env, doc).value[0].keyType == 3
  {
    hide MakePlan, EncodeAnswers, EncodeMethod, UsualNames, UsableGateways, Did.ToString, Base64Url.Encode, PlanVms;
    var text := did.ToString();
    var m := PlainMethod(text, "0", OkpMaterial("X25519", key));
    var doc := SmallDocument(did, None, [m], [], []);
    PlainMethodEncodes(env, text, "0", OkpMaterial("X25519", key));
    var vm := EncodeMethod(env, text, m, {}).value;
    EncodeMethodsOk(env, text, [m], [vm], {});
    assert MoveToFront([vm], 0) == [vm];
    SmallPlans(env, did, key, None, [m], [vm], 0, [], []);
    SmallEncodes(env, doc, types, gateways);
  }

  // ------------------------------------------------------------------ one key in two spellings

  /** A point under a curve name: `P-256`, or the name `secp256r1` that the encoder takes for it. */
  function Point(curve: string, x: bytes, y: bytes): KeyMaterial {
    EcMaterial(curve, x, y)
  }

  /** A point of P-256 whose two spellings have the thumbprints `other` and `own`, usable as fragments. */
  predicate TwoSpellings(env: Env, x: bytes, y: bytes, other: string, own: string) {
    && |x| == 32 && |y| == 32 && env.decompress(P256, Compress(x, y)) == Some((x, y))
    && env.thumbprint(Point("secp256r1", x, y), map[]) == Some(other)
    && env.thumbprint(Point("P-256", x, y), map[]) == Some(own)
    && other != own && other !in {"", "0"} && own !in {"", "0"} && Scalar(other) && Scalar(own)
  }

  function OtherSpelling(did: string, x: bytes, y: bytes, other: string): VerificationMethod {
    PlainMethod(did, other, Point("secp256r1", x, y))
  }

  function OwnSpelling(did: string, x: bytes, y: bytes, own: string): VerificationMethod {
    PlainMethod(did, own, Point("P-256", x, y))
  }

  /** Both spellings are accepted, readable, and read back under the same fragment. */
  lemma SpellingsRead(env: Env, did: string, x: bytes, y: bytes, other: string, own: string)
    requires TwoSpellings(env, x, y, other, own) && Scalar(did)
    ensures var a, b := OtherSpelling(did, x, y, other), OwnSpelling(did, x, y, own);
            && AcceptedMethod(env, did, a) && EncodeMethod(env, did, a, {}).value.fragment == other
            && AcceptedMethod(env, did, b) && EncodeMethod(env, did, b, {}).value.fragment == own
            && KeyReadable(env, a) && WireFragment(env, did, a) == own
            && KeyReadable(env, b) && WireFragment(env, did, b) == own
            && NormalMethod(env, did, a).Ok? && NormalMethod(env, did, a).value.id == did + "#" + own
            && NormalMethod(env, did, b).Ok? && NormalMethod(env, did, b).value.id == did + "#" + own
  {
    hide Base64Url.Encode, Compress;
    var a, b := OtherSpelling(did, x, y, other), OwnSpelling(did, x, y, own);
    PlainMethodEncodes(env, did, other, Point("secp256r1", x, y));
    PlainMethodEncodes(env, did, own, Point("P-256", x, y));
    hide EncodeMethod;
    assert a.id[|did| + 1..] == other && b.id[|did| + 1..] == own;
    assert (did + "#0")[|did| + 1..] == "0";
    assert Decimal(2) == "2";
    NormalKeyIff(env, did, a);
    NormalKeyIff(env, did, b);
    NormalId(env, did, a);
    NormalId(env, did, b);
  }

  /** The method that names its key by the thumbprint of the other spelling is renamed on the wire. */
  lemma OtherSpellingRenamed(env: Env, did: string, x: bytes, y: bytes, other: string, own: string)
    requires TwoSpellings(env, x, y, other, own) && Scalar(did)
    ensures var m := OtherSpelling(did, x, y, other);
            && AcceptedMethod(env, did, m) && !KeepsName(env, did, m)
            && var record := PairsText(VmPairs(EncodeMethod(env, did, m, {}).value, did));
            && DecodeMethod(env, did, "k1", record).Ok?
            && DecodeMethod(env, did, "k1", record).value.id == did + "#" + own != m.id
  {
    hide PairsText, VmPairs, DecodeMethod, KeyReadable, WireFragment, NormalMethod, KeepsName, EncodeMethod;
    var m := OtherSpelling(did, x, y, other);
    SpellingsRead(env, did, x, y, other, own);
    assert m.id[|did| + 1..] == other && (did + "#0")[|did| + 1..] == "0" && (did + "#" + own)[|did| + 1..] == own;
    MethodKeepsId(env, did, m, "k1");
  }

  /** The identity key and one point in both spellings, the second of which is the agreement key. */
  function SpelledTwice(did: Did, key: bytes, x: bytes, y: bytes, other: string, own: string): Document {
    var text := did.ToString();
    SmallDocument(did, None, [IdentityMethod(did, key), OtherSpelling(text, x, y, other), OwnSpelling(text, x, y, own)],
                  [Referenced(Absolute(text + "#" + own))], [])
  }

  lemma SpelledTwicePlans(env: Env, did: Did, key: bytes, x: bytes, y: bytes, other: string, own: string)
    requires Identity(env, did, key) && TwoSpellings(env, x, y, other, own)
    ensures MakePlan(env, SpelledTwice(did, key, x, y, other, own)).Ok?
  {
    hide MakePlan, EncodeMethod, EncodeMethods, Base64Url.Encode, Did.ToString, KeyReadable, WireFragment, NormalMethod,
      PlanVms, VmLabel;
    var text := did.ToString();
    var doc := SpelledTwice(did, key, x, y, other, own);
    var methods := doc.verificationMethod;
    IdentityEncodes(env, did, key);
    SpellingsRead(env, text, x, y, other, own);
    var vms := seq(3, i requires 0 <= i < 3 => EncodeMethod(env, text, methods[i], {}).value);
    EncodeMethodsOk(env, text, methods, vms, {});
    assert IdentityPosition(vms) == Some(0);
    FrontStays(vms);
    LookupAgrees(env, text, methods, vms, text + "#" + own, 0);
    assert methods[2].id == text + "#" + own;
    SmallPlans(env, did, key, None, methods, vms, 0, doc.relationships.keyAgreement, []);
  }

  lemma SpelledTwiceReads(env: Env, did: Did, key: bytes, x: bytes, y: bytes, other: string, own: string,
                          types: seq<u64>, gateways: seq<Gateway>)
    requires Publishes(env, did, key, gateways) && TwoSpellings(env, x, y, other, own)
    requires env.isDidUrl(did.ToString() + "#" + other) && env.isDidUrl(did.ToString() + "#" + own)
    ensures var doc := SpelledTwice(did, key, x, y, other, own);
            && EncodeAnswers(env, doc, types, gateways).Ok? && AcceptedMethods(env, doc)
            && DecodeAnswers(env, did, EncodeAnswers(env, doc, types, gateways).value).Ok?
            && WireFragments(env, did.ToString(), doc.verificationMethod) == ["0", own, own]
  {
    hide MakePlan, EncodeAnswers, DecodeAnswers, UsualNames, UsableGateways, Did.ToString, EncodeMethod, KeyReadable,
      WireFragment, NormalMethod, CanonicalMethod, TwoSpellings;
    var text := did.ToString();
    var doc := SpelledTwice(did, key, x, y, other, own);
    var methods := doc.verificationMethod;
    assert text + "#" + "0" == text + "#0";
    SpelledTwicePlans(env, did, key, x, y, other, own);
    SmallEncodes(env, doc, types, gateways);
    IdentityReads(env, did, key);
    SpellingsRead(env, text, x, y, other, own);
    forall i | 0 <= i < 3
      ensures TypedMethod(env, methods[i]) && AcceptedMethod(env, text, methods[i])
              && MethodReadable(env, text, methods[i])
    {
    }
    ReadableIff(env, doc, types, gateways);
  }

  /** The last method is read back under the name of the one before it. */
  lemma SpelledTwiceNames(env: Env, did: Did, key: bytes, x: bytes, y: bytes, other: string, own: string)
    requires AcceptedMethods(env, SpelledTwice(did, key, x, y, other, own))
    requires WireFragments(env, did.ToString(), SpelledTwice(did, key, x, y, other, own).verificationMethod)
             == ["0", own, own]
    ensures var doc, text := SpelledTwice(did, key, x, y, other, own), did.ToString();
            && !MethodsNamable(env, doc) && !NoDuplicates(WireFragments(env, text, doc.verificationMethod))
            && IdentityFirst(text, doc.verificationMethod) == doc.verificationMethod
            && !NamedFirst(env, text, doc.verificationMethod, doc.relationships.keyAgreement)
  {
    hide WireFragment, EncodeMethod, Did.ToString;
    var doc, text := SpelledTwice(did, key, x, y, other, own), did.ToString();
    var methods := doc.verificationMethod;
    var names := WireFragments(env, text, methods);
    assert names[1] == names[2] == own;
    assert text + "#" + "0" == text + "#0";
    IdentityStays(text, methods);
    assert Names(doc.relationships.keyAgreement, text, methods[2].id) by {
      assert doc.relationships.keyAgreement[0].reference.Resolve(text) == methods[2].id;
    }
    assert !AloneAt(env, text, methods, 2) by {
      assert WireFragment(env, text, methods[1]) == names[1] && WireFragment(env, text, methods[2]) == names[2];
    }
  }

  /** One point listed in both spellings, each named by its own thumbprint: it is published, it is read back
      as two methods of one id, the agreement key is no longer the method it was, and the document read back
      cannot be published again. */
  lemma SpelledTwiceMerged(env: Env, did: Did, key: bytes, x: bytes, y: bytes, other: string, own: string,
                           types: seq<u64>, gateways: seq<Gateway>)
    requires SoundCurves(env) && Publishes(env, did, key, gateways) && TwoSpellings(env, x, y, other, own)
    requires env.isDidUrl(did.ToString() + "#" + other) && env.isDidUrl(did.ToString() + "#" + own)
    ensures var doc := SpelledTwice(did, key, x, y, other, own);
            && EncodeAnswers(env, doc, types, gateways).Ok?
            && var r := DecodeAnswers(env, did, EncodeAnswers(env, doc, types, gateways).value);
            && r.Ok? && !DistinctIds(r.value.document.verificationMethod)
            && !EntriesFollow(doc.relationships.keyAgreement, did.ToString(), doc.verificationMethod,
                              r.value.document.relationships.keyAgreement, r.value.document.verificationMethod)
            && EncodeAnswers(env, r.value.document, types, gateways).Err?
  {
    hide EncodeAnswers, DecodeAnswers, Publishes, TwoSpellings, SoundCurves, AcceptedMethod, EntriesFollow, DistinctIds,
      KindsWritable, MethodsNamable, WireFragments, NoDuplicates, NamedFirst, IdentityFirst, Did.ToString, SpelledTwice;
    var doc := SpelledTwice(did, key, x, y, other, own);
    assert doc.id == did by { SpelledTwiceId(did, key, x, y, other, own); }
    SpelledTwiceReads(env, did, key, x, y, other, own, types, gateways);
    SpelledTwiceNames(env, did, key, x, y, other, own);
    TargetsUnambiguousIff(env, doc, types, gateways);
    RepublishableIff(env, doc, types, gateways);
  }

  lemma SpelledTwiceId(did: Did, key: bytes, x: bytes, y: bytes, other: string, own: string)
    ensures SpelledTwice(did, key, x, y, other, own).id == did
  {
  }

  // ------------------------------------------------------------------ records out of order

  function SecondMethod(did: Did, more: bytes): VerificationMethod {
    PlainMethod(did.ToString(), "a", OkpMaterial("X25519", more))
  }

  /** The identity key and one more. */
  function TwoKeys(did: Did, key: bytes, more: bytes): Document {
    SmallDocument(did, None, [IdentityMethod(did, key), SecondMethod(did, more)], [], [])
  }

  predicate SecondKey(env: Env, more: bytes) {
    |more| == 32 && env.thumbprint(OkpMaterial("X25519", more), map[]).Some?
  }

  lemma SecondReads(env: Env, did: Did, more: bytes)
    requires SecondKey(env, more) && Scalar(did.ToString())
    ensures var text, m := did.ToString(), SecondMethod(did, more);
            && AcceptedMethod(env, text, m) && EncodeMethod(env, text, m, {}).value.fragment == "a"
            && WireFragment(env, text, m) == "a" && NormalMethod(env, text, m).Ok?
            && NormalMethod(env, text, m).value.id == text + "#a"
            && NormalMethod(env, text, m).value.controller == text
  {
    hide Base64Url.Encode, Did.ToString;
    var text, m := did.ToString(), SecondMethod(did, more);
    PlainMethodEncodes(env, text, "a", OkpMaterial("X25519", more));
    hide EncodeMethod;
    assert m.id == text + "#a" && m.id[|text| + 1..] == "a";
    assert Decimal(3) == "3";
    NormalId(env, text, m);
  }

  lemma TwoKeysPlan(env: Env, did: Did, key: bytes, more: bytes)
    requires Identity(env, did, key) && SecondKey(env, more)
    ensures var doc, text := TwoKeys(did, key, more), did.ToString();
            && MakePlan(env, doc).Ok? && Encodes(env, text, doc.verificationMethod, MakePlan(env, doc).value.vms)
  {
    hide MakePlan, EncodeMethod, EncodeMethods, Base64Url.Encode, Did.ToString, WireFragment, NormalMethod, PlanVms;
    var doc, text := TwoKeys(did, key, more), did.ToString();
    var methods := doc.verificationMethod;
    IdentityEncodes(env, did, key);
    SecondReads(env, did, more);
    var vms := seq(2, i requires 0 <= i < 2 => EncodeMethod(env, text, methods[i], {}).value);
    EncodeMethodsOk(env, text, methods, vms, {});
    assert IdentityPosition(vms) == Some(0);
    FrontStays(vms);
    SmallPlans(env, did, key, None, methods, vms, 0, [], []);
  }

  /** The records of the two keys with the second key's before the first's. */
  function OutOfOrder(did: Did, plan: Plan): seq<NamedText>
    requires |plan.vms| == 2
  {
    [NamedText("_" + VmLabel(1) + "._did.", PairsText(VmPairs(plan.vms[1], did.ToString()))),
     NamedText("_" + VmLabel(0) + "._did.", PairsText(VmPairs(plan.vms[0], did.ToString()))),
     NamedText("_did." + did.id + ".", RootText(plan))]
  }

  lemma OutOfOrderRecords(env: Env, did: Did, plan: Plan)
    requires |plan.vms| == 2
    ensures ApplyRecords(env, did.ToString(), START, RecordsOf(OutOfOrder(did, plan)))
            == var text := did.ToString();
               var a := DecodeMethod(env, text, "k1", PairsText(VmPairs(plan.vms[1], text)));
               var b := DecodeMethod(env, text, "k0", PairsText(VmPairs(plan.vms[0], text)));
               if a.Err? then Err(a.error)
               else if b.Err? then Err(b.error)
               else Ok(START.(methods := [a.value, b.value], ids := map["k1" := a.value.id, "k0" := b.value.id],
                              roots := [RootText(plan)]))
  {
    hide DecodeMethod, PairsText, VmPairs, RootText, LabelOf, ApplyRecord, ApplyRecords, Did.ToString;
    var text := did.ToString();
    var d1, d0, root := PairsText(VmPairs(plan.vms[1], text)), PairsText(VmPairs(plan.vms[0], text)), RootText(plan);
    assert VmLabel(1) == "k1" && VmLabel(0) == "k0" by { assert Decimal(1) == "1" && Decimal(0) == "0"; }
    var rest := [NamedText("_did." + did.id + ".", root)];
    var p1, p0, tail := TxtRecord("k1", d1), TxtRecord("k0", d0), RecordsOf(rest);
    VmRecordApplies(env, text, START, 1, d1);
    assert RecordsOf(OutOfOrder(did, plan)) == [p1] + ([p0] + tail) by { LabelsInOrder(); }
    ApplyRecordsCons(env, text, START, p1, [p0] + tail);
    var a := DecodeMethod(env, text, "k1", d1);
    if a.Ok? {
      var q := START.(methods := [] + [a.value], ids := map["k1" := a.value.id]);
      VmRecordApplies(env, text, q, 0, d0);
      ApplyRecordsCons(env, text, q, p0, tail);
      var b := DecodeMethod(env, text, "k0", d0);
      if b.Ok? {
        assert [] + [a.value] + [b.value] == [a.value, b.value] && [] + [root] == [root];
        RootReadsBack(env, text, q.(methods := [a.value, b.value], ids := q.ids["k0" := b.value.id]), did.id, root);
      }
    }
  }

  lemma LabelsInOrder()
    ensures LabelOf("_" + VmLabel(1) + "._did.") == "k1" && LabelOf("_" + VmLabel(0) + "._did.") == "k0"
  {
    hide LabelOf;
    assert Decimal(1) == "1" && Decimal(0) == "0";
    LabelOfName("k1", "_did.");
    LabelOfName("k0", "_did.");
    assert "_" + "k1" + "." + "_did." == "_" + VmLabel(1) + "._did.";
    assert "_" + "k0" + "." + "_did." == "_" + VmLabel(0) + "._did.";
  }

  /** The document that the reordered records spell: the same two methods, the identity method last. */
  function LaterIdentity(env: Env, did: Did, key: bytes, more: bytes): Document
    requires Identity(env, did, key) && SecondKey(env, more)
  {
    IdentityReads(env, did, key);
    SecondReads(env, did, more);
    SmallDocument(did, None, [NormalMethod(env, did.ToString(), SecondMethod(did, more)).value,
                              NormalMethod(env, did.ToString(), IdentityMethod(did, key)).value], [], [])
  }

  lemma OutOfOrderDecodes(env: Env, did: Did, key: bytes, more: bytes)
    requires Identity(env, did, key) && SecondKey(env, more) && env.isDid(did.ToString())
    requires env.isDidUrl(did.ToString() + "#0") && env.isDidUrl(did.ToString() + "#a")
    ensures MakePlan(env, TwoKeys(did, key, more)).Ok? && |MakePlan(env, TwoKeys(did, key, more)).value.vms| == 2
    ensures DecodeAnswers(env, did, TextAnswers(OutOfOrder(did, MakePlan(env, TwoKeys(did, key, more)).value)))
            == Ok(Decoded(LaterIdentity(env, did, key, more), None))
  {
    hide MakePlan, EncodeMethod, DecodeMethod, NormalMethod, PairsText, VmPairs, RootText, ApplyRecords, TxtRecords,
      TextAnswers, RecordsOf, WireFragment, KeyReadable, CanonicalMethod, Did.ToString, ApplyRoot, Scalar,
      DecodeIdentityKey, ResolveLists, ListPairs, PlanVms;
    var text, doc := did.ToString(), TwoKeys(did, key, more);
    var methods := doc.verificationMethod;
    TwoKeysPlan(env, did, key, more);
    IdentityReads(env, did, key);
    IdentityEncodes(env, did, key);
    SecondReads(env, did, more);
    var plan := MakePlan(env, doc).value;
    var texts := OutOfOrder(did, plan);
    TextsReadBack(texts);
    OutOfOrderRecords(env, did, plan);
    MethodRoundTrip(env, text, methods[1], "k1");
    MethodRoundTrip(env, text, methods[0], "k0");
    var n0, n1 := NormalMethod(env, text, methods[0]).value, NormalMethod(env, text, methods[1]).value;
    ControllerKept(env, text, methods[0]);
    var ids := map["k1" := n1.id, "k0" := n0.id];
    TwoKeysRelationships(env, did, key, more, n0, n1, ids);
    var d := LaterIdentity(env, did, key, more);
    assert TypedMethod(env, d.verificationMethod[0]) && TypedMethod(env, d.verificationMethod[1]);
    assert did.name == "dht" by { DhtMethod(env, doc); }
  }

  /** Whatever the order of the records, the root record leads back to the same uses of `#0`. */
  lemma TwoKeysRelationships(env: Env, did: Did, key: bytes, more: bytes, n0: VerificationMethod,
                             n1: VerificationMethod, ids: map<string, string>)
    requires Identity(env, did, key) && SecondKey(env, more) && n0.id == did.ToString() + "#0"
    requires ids == map["k1" := n1.id, "k0" := n0.id]
    ensures PlanVms(env, TwoKeys(did, key, more)).Ok? && MakePlan(env, TwoKeys(did, key, more)).Ok?
    ensures ApplyRoots(NO_RELATIONSHIPS, [RootText(MakePlan(env, TwoKeys(did, key, more)).value)], ids)
            == TwoKeys(did, key, more).relationships
  {
    hide MakePlan, EncodeMethod, PairsText, ApplyRoot, Did.ToString, ResolveLists, ListPairs, PlanVms, PlanServices,
      NormalList, Encodes, MandatoryListsHold, RootPairs, DecodeIdentityKey, Scalar;
    var text, doc := did.ToString(), TwoKeys(did, key, more);
    var methods, r := doc.verificationMethod, doc.relationships;
    TwoKeysPlan(env, did, key, more);
    PlanFacts(env, doc);
    var plan := MakePlan(env, doc).value;
    assert VmLabel(1) == "k1" && VmLabel(0) == "k0" by { assert Decimal(1) == "1" && Decimal(0) == "0"; }
    assert IndexHolds(ids, [n0, n1]);
    assert plan.services == [] by { assert PlanServices([], text, {}) == Ok([]) by { NoServices(text); } }
    RelationshipsReadBack(env, text, methods, plan.vms, [n0, n1], ids, r, 0);
    OneRoot(RootText(plan), ids);
    assert methods[0].id == text + "#0" by { assert text + "#" + "0" == text + "#0"; }
    UsesKept(text, methods, [n0, n1]);
  }

  lemma NoServices(did: string)
    ensures PlanServices([], did, {}) == Ok([])
  {
  }

  lemma UsesKept(did: string, methods: seq<VerificationMethod>, normal: seq<VerificationMethod>)
    requires methods != [] && |methods| == |normal| && methods[0].id == did + "#0" && normal[0].id == did + "#0"
    ensures var uses := [Referenced(Absolute(did + "#0"))];
            NormalList(uses, did, methods, normal) == uses && NormalList([], did, methods, normal) == []
  {
    assert IndexOf(methods, did + "#0") == Some(0);
  }

  lemma LaterIdentityPlans(env: Env, did: Did, key: bytes, more: bytes)
    requires SoundCurves(env) && Identity(env, did, key) && SecondKey(env, more)
    ensures MakePlan(env, LaterIdentity(env, did, key, more)).Ok?
  {
    hide MakePlan, EncodeMethod, EncodeMethods, Base64Url.Encode, Did.ToString, NormalMethod, SoundCurves, WireFragment,
      KeyReadable, CanonicalMethod, PlanVms, MoveToFront;
    var text := did.ToString();
    IdentityReads(env, did, key);
    IdentityEncodes(env, did, key);
    SecondReads(env, did, more);
    var methods := LaterIdentity(env, did, key, more).verificationMethod;
    NormalMethodEncodesIff(env, text, SecondMethod(did, more));
    NormalMethodEncodesIff(env, text, IdentityMethod(did, key));
    PlainMethodEncodes(env, text, "0", Ed25519Material(key));
    var vms := seq(2, i requires 0 <= i < 2 => EncodeMethod(env, text, methods[i], {}).value);
    EncodeMethodsOk(env, text, methods, vms, {});
    assert vms[0].fragment == "a" && vms[1].fragment == "0";
    assert IdentityPosition(vms) == Some(1);
    SmallPlans(env, did, key, None, methods, vms, 1, [], []);
  }

  /** A packet whose record `k1` comes before `k0`: it decodes to a document that can be published, and the
      packet published for that document decodes to another one. */
  lemma RecordOrderNotFixed(env: Env, did: Did, key: bytes, more: bytes, gateways: seq<Gateway>)
    requires SoundCurves(env) && Publishes(env, did, key, gateways) && SecondKey(env, more)
    requires env.isDidUrl(did.ToString() + "#a")
    ensures MakePlan(env, TwoKeys(did, key, more)).Ok? && |MakePlan(env, TwoKeys(did, key, more)).value.vms| == 2
    ensures var r := DecodeAnswers(env, did,
                                   TextAnswers(OutOfOrder(did, MakePlan(env, TwoKeys(did, key, more)).value)));
            && r.Ok? && EncodeAnswers(env, r.value.document, [], gateways).Ok?
            && DecodeAnswers(env, did, EncodeAnswers(env, r.value.document, [], gateways).value) != r
  {
    hide MakePlan, EncodeAnswers, DecodeAnswers, SoundCurves, TextAnswers, OutOfOrder, UsualNames, UsableGateways,
      NormalMethod, Did.ToString, DecodeIdentityKey, EncodeMethod, WireFragment, KeyReadable, CanonicalMethod, Scalar;
    OutOfOrderDecodes(env, did, key, more);
    LaterIdentityPlans(env, did, key, more);
    var d := LaterIdentity(env, did, key, more);
    SmallEncodes(env, d, [], gateways);
    var packet := TextAnswers(OutOfOrder(did, MakePlan(env, TwoKeys(did, key, more)).value));
    DecoderFixpoint(env, did, packet, gateways);
    SecondReads(env, did, more);
    SameFragment(did.ToString(), "a", "0");
    assert did.ToString() + "#" + "0" == did.ToString() + "#0" && did.ToString() + "#" + "a" == did.ToString() + "#a";
    assert !IdentityLeads(d);
  }
}

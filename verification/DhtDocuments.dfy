/** What a publisher can rely on: which accepted documents can be read back, what reading keeps,
    and that a read-back document can be published again without further change. */
module DhtDocuments {
  import opened Wrappers
  import opened Text
  import opened DidDocument
  import opened DhtRecords
  import opened DhtEncode
  import opened DhtDecode
  import opened DhtNormal
  import opened DhtRoundTrip
  import opened DhtRelationships
  import opened DhtTheorems
  import opened DhtFixpoint
  import Base64Url
  import BTree

  // ------------------------------------------------------------------ which documents read back

  /** The key reads back: an Edwards key is a point, a compressed point lies on its curve, and the
      resulting key has a thumbprint. */
  predicate KeyReadable(env: Env, m: VerificationMethod)
    requires "publicKeyJwk" in m.properties && m.properties["publicKeyJwk"].KeyProperty?
    requires ToWireKey(KeyOf(m).material).Ok?
  {
    var wire := ToWireKey(KeyOf(m).material).value;
    && (wire.keyType == 0 ==> env.isEd25519Point(wire.raw))
    && (wire.keyType == 1 ==> env.decompress(Secp256k1, wire.raw).Some?)
    && (wire.keyType == 2 ==> env.decompress(P256, wire.raw).Some?)
    && (ReadBackKey(env, m).Ok? ==> env.thumbprint(ReadBackKey(env, m).value.material, map[]).Some?)
  }

  predicate NamedByThumbprint(env: Env, did: string, m: VerificationMethod)
    requires AcceptedMethod(env, did, m)
  {
    m.id != did + "#0" && env.thumbprint(KeyOf(m).material, KeyOf(m).rest) == Some(m.id[|did| + 1..])
  }

  /** The thumbprint of the key that the wire bytes of a method's key spell. */
  function RebuiltThumbprint(env: Env, did: string, m: VerificationMethod): Option<string>
    requires AcceptedMethod(env, did, m)
  {
    match ReadBackKey(env, m)
    case Err(_) => None
    case Ok(parsed) => env.thumbprint(parsed.material, map[])
  }

  /** The fragment a method is read back under: its own, unless it is named by its thumbprint, which is
      not written but computed again from the key on the wire. */
  function WireFragment(env: Env, did: string, m: VerificationMethod): string
    requires AcceptedMethod(env, did, m)
  {
    if NamedByThumbprint(env, did, m) then RebuiltThumbprint(env, did, m).GetOr("") else m.id[|did| + 1..]
  }

  predicate KeepsName(env: Env, did: string, m: VerificationMethod)
    requires AcceptedMethod(env, did, m)
  {
    NamedByThumbprint(env, did, m) ==> RebuiltThumbprint(env, did, m) == Some(m.id[|did| + 1..])
  }

  lemma NormalId(env: Env, did: string, m: VerificationMethod)
    requires AcceptedMethod(env, did, m) && NormalMethod(env, did, m).Ok?
    ensures NormalMethod(env, did, m).value.id == did + "#" + WireFragment(env, did, m)
    ensures NormalMethod(env, did, m).value.id == m.id <==> KeepsName(env, did, m)
  {
    hide ReadBackKey;
    var fragment := m.id[|did| + 1..];
    assert m.id == did + "#" + fragment;
    assert (did + "#0")[|did| + 1..] == "0";
    assert (did + "#" + WireFragment(env, did, m))[|did| + 1..] == WireFragment(env, did, m);
  }

  lemma NormalKeyIff(env: Env, did: string, m: VerificationMethod)
    requires AcceptedMethod(env, did, m)
    ensures NormalMethod(env, did, m).Ok? <==> KeyReadable(env, m)
  {
  }

  /** The record written for a method decodes to its normal form. */
  lemma RecordDecodes(env: Env, did: string, m: VerificationMethod, recordId: string)
    requires AcceptedMethod(env, did, m)
    requires recordId == "k0" <==> m.id == did + "#0"
    ensures DecodeMethod(env, did, recordId, PairsText(VmPairs(EncodeMethod(env, did, m, {}).value, did)))
            == NormalMethod(env, did, m)
  {
    hide DecodeMethod, PairsText, VmPairs, NormalMethod, EncodeMethod;
    EncodedId(env, did, m);
    var fragment := EncodeMethod(env, did, m, {}).value.fragment;
    assert (did + "#" + fragment)[|did| + 1..] == fragment && (did + "#0")[|did| + 1..] == "0";
    MethodRoundTrip(env, did, m, recordId);
  }

  /** The record of an accepted method can be read exactly when the key it carries can. */
  lemma KeyReadableIff(env: Env, did: string, m: VerificationMethod, recordId: string)
    requires AcceptedMethod(env, did, m)
    requires recordId == "k0" <==> m.id == did + "#0"
    ensures DecodeMethod(env, did, recordId, PairsText(VmPairs(EncodeMethod(env, did, m, {}).value, did))).Ok?
            <==> KeyReadable(env, m)
  {
    hide DecodeMethod, PairsText, VmPairs, NormalMethod, KeyReadable, EncodeMethod;
    RecordDecodes(env, did, m, recordId);
    NormalKeyIff(env, did, m);
  }

  /** The key reads back, and the id it is read back under is valid. */
  predicate MethodReadable(env: Env, did: string, m: VerificationMethod)
    requires AcceptedMethod(env, did, m)
  {
    KeyReadable(env, m) && env.isDidUrl(did + "#" + WireFragment(env, did, m))
  }

  /** No empty controller list, no lone empty endpoint, and every method readable. */
  predicate Readable(env: Env, doc: Document)
    requires AcceptedMethods(env, doc)
  {
    && (doc.controller == Some(Many([])) ==> env.isDid(""))
    && (forall i :: 0 <= i < |doc.service| ==> EndpointStrings(doc.service[i].endpoint) != Some([""]))
    && (forall i :: 0 <= i < |doc.verificationMethod| ==>
          MethodReadable(env, doc.id.ToString(), doc.verificationMethod[i]))
  }

  lemma SameElements<T>(a: seq<T>, b: seq<T>, i: nat) returns (j: nat)
    requires multiset(a) == multiset(b) && i < |a|
    ensures j < |b| && b[j] == a[i]
  {
    assert a[i] in multiset(a);
    assert a[i] in multiset(b);
    assert a[i] in b;
    j :| 0 <= j < |b| && b[j] == a[i];
  }

  lemma AllMethodsReadable(env: Env, doc: Document)
    requires AcceptedMethods(env, doc) && Typed(env, doc)
    requires forall i :: 0 <= i < |IdentityFirst(doc.id.ToString(), doc.verificationMethod)| ==>
               AcceptedMethod(env, doc.id.ToString(), IdentityFirst(doc.id.ToString(), doc.verificationMethod)[i])
    ensures (forall i :: 0 <= i < |doc.verificationMethod| ==>
               MethodReadable(env, doc.id.ToString(), doc.verificationMethod[i]))
            <==>
            var r := NormalMethods(env, doc.id.ToString(), IdentityFirst(doc.id.ToString(), doc.verificationMethod));
            r.Ok? && forall i :: 0 <= i < |r.value| ==> TypedMethod(env, r.value[i])
  {
    hide AcceptedMethod, NormalMethod, KeyReadable, WireFragment, KeepsName, Did.ToString;
    var did, before := doc.id.ToString(), doc.verificationMethod;
    var after := IdentityFirst(did, before);
    hide IdentityFirst;
    var r := NormalMethods(env, did, after);
    if forall i :: 0 <= i < |before| ==> MethodReadable(env, did, before[i]) {
      forall i | 0 <= i < |after|
        ensures NormalMethod(env, did, after[i]).Ok?
        ensures TypedMethod(env, NormalMethod(env, did, after[i]).value)
      {
        var j := SameElements(after, before, i);
        NormalKeyIff(env, did, before[j]);
        NormalId(env, did, before[j]);
        ControllerKept(env, did, before[j]);
      }
    }
    if r.Ok? && forall i :: 0 <= i < |r.value| ==> TypedMethod(env, r.value[i]) {
      forall i | 0 <= i < |before|
        ensures MethodReadable(env, did, before[i])
      {
        var j := SameElements(before, after, i);
        assert NormalMethod(env, did, after[j]) == Ok(r.value[j]);
        NormalKeyIff(env, did, before[i]);
        NormalId(env, did, before[i]);
      }
    }
  }

  lemma ControllerKept(env: Env, did: string, m: VerificationMethod)
    requires AcceptedMethod(env, did, m)
    ensures NormalMethod(env, did, m).Ok? ==> NormalMethod(env, did, m).value.controller == m.controller
  {
  }

  lemma ServicesReadable(doc: Document)
    requires forall i :: 0 <= i < |doc.service| ==> EndpointStrings(doc.service[i].endpoint).Some?
    ensures NormalServices(doc.service).Ok?
            <==> forall i :: 0 <= i < |doc.service| ==> EndpointStrings(doc.service[i].endpoint) != Some([""])
    ensures NormalServices(doc.service).Ok? ==>
              forall i :: 0 <= i < |doc.service| ==> NormalServices(doc.service).value[i].id == doc.service[i].id
  {
  }

  lemma {:induction false} PlannedEndpoints(services: seq<Service>, did: string, seen: set<string>)
    requires PlanServices(services, did, seen).Ok?
    ensures forall i :: 0 <= i < |services| ==>
              PlanService(services[i], did).Ok? && EndpointStrings(services[i].endpoint).Some?
    decreases services
  {
    hide PlanExtras, BTree.InOrder;
    if services != [] {
      PlannedEndpoints(services[1..], did, seen + {services[0].id});
    }
  }

  lemma ControllerReadable(env: Env, c: Option<OneOrMany>)
    requires c.Some? ==> TypedController(env, c.value)
    ensures (NormalController(c).Some? ==> TypedController(env, NormalController(c).value))
            <==> (c == Some(Many([])) ==> env.isDid(""))
  {
  }

  /** An accepted document can be read back exactly when it is readable. */
  lemma ReadableIff(env: Env, doc: Document, types: seq<u64>, gateways: seq<Gateway>)
    requires Typed(env, doc) && EncodeAnswers(env, doc, types, gateways).Ok?
    ensures AcceptedMethods(env, doc)
    ensures DecodeAnswers(env, doc.id, EncodeAnswers(env, doc, types, gateways).value).Ok? <==> Readable(env, doc)
  {
    hide EncodeAnswers, DecodeAnswers, AcceptedMethod, MakePlan, PlanVms, TypesRead, Normal, Readable, Typed;
    EncodeThenDecode(env, doc, types, gateways);
    EncodedPlan(env, doc, types, gateways);
    NormalReadable(env, doc);
  }

  /** Two ways an accepted document is lost: a service whose only endpoint is the empty text, and an empty
      controller list, which comes back as the empty text. */
  lemma EmptyTextIsLost(env: Env, doc: Document, types: seq<u64>, gateways: seq<Gateway>, i: nat)
    requires Typed(env, doc) && EncodeAnswers(env, doc, types, gateways).Ok?
    requires || (i < |doc.service| && doc.service[i].endpoint == Some(JString("")))
             || (doc.controller == Some(Many([])) && !env.isDid(""))
    ensures DecodeAnswers(env, doc.id, EncodeAnswers(env, doc, types, gateways).value).Err?
  {
    hide EncodeAnswers, DecodeAnswers, AcceptedMethods, MethodReadable, Typed;
    ReadableIff(env, doc, types, gateways);
  }

  lemma EncodedPlan(env: Env, doc: Document, types: seq<u64>, gateways: seq<Gateway>)
    requires EncodeAnswers(env, doc, types, gateways).Ok?
    ensures MakePlan(env, doc).Ok?
  {
    hide MakePlan, NsTargets, PlanTexts, TextAnswers, NsAnswers;
  }

  lemma NormalReadable(env: Env, doc: Document)
    requires Typed(env, doc) && MakePlan(env, doc).Ok? && AcceptedMethods(env, doc)
    ensures Normal(env, doc).Ok? <==> Readable(env, doc)
  {
    hide MakePlan, PlanVms, PlanServices, MethodReadable, AcceptedMethod, NormalMethods, NormalServices,
      NormalRelationships, IdentityFirst, EndpointStrings, TypedMethod, TypedController, NormalController, Did.ToString;
    PlanFacts(env, doc);
    IdentityFirstAccepted(env, doc);
    AllMethodsReadable(env, doc);
    PlannedEndpoints(doc.service, doc.id.ToString(), {});
    ServicesReadable(doc);
    ControllerReadable(env, doc.controller);
  }

  // ------------------------------------------------------------------ what reading keeps

  /** The record of a readable method decodes to a method of the same id if and only if the method is not
      named by its thumbprint, or the key rebuilt from its wire bytes has that very thumbprint. */
  lemma MethodKeepsId(env: Env, did: string, m: VerificationMethod, recordId: string)
    requires AcceptedMethod(env, did, m) && KeyReadable(env, m)
    requires recordId == "k0" <==> m.id == did + "#0"
    ensures var record := PairsText(VmPairs(EncodeMethod(env, did, m, {}).value, did));
            && DecodeMethod(env, did, recordId, record).Ok?
            && DecodeMethod(env, did, recordId, record).value.id == did + "#" + WireFragment(env, did, m)
            && (DecodeMethod(env, did, recordId, record).value.id == m.id <==> KeepsName(env, did, m))
  {
    hide DecodeMethod, PairsText, VmPairs, NormalMethod, KeyReadable, WireFragment, KeepsName, EncodeMethod;
    NormalKeyIff(env, did, m);
    RecordDecodes(env, did, m, recordId);
    NormalId(env, did, m);
  }

  /** The key is written the way the decoder writes it, and extra members do not enter its thumbprint. */
  predicate CanonicalMethod(env: Env, did: string, m: VerificationMethod)
    requires AcceptedMethod(env, did, m)
  {
    && StableMaterial(env, KeyOf(m).material)
    && env.thumbprint(KeyOf(m).material, KeyOf(m).rest) == env.thumbprint(KeyOf(m).material, map[])
  }

  /** The method with its key id set to the thumbprint and a missing algorithm to the default of its curve,
      without any other property. */
  function Completed(env: Env, did: string, m: VerificationMethod): VerificationMethod
    requires AcceptedMethod(env, did, m)
  {
    var key := KeyOf(m);
    var alg := key.alg.GetOr(DefaultAlgorithm(ToWireKey(key.material).value.keyType));
    var jwk := Jwk(key.material, Some(alg), env.thumbprint(key.material, map[]), map[]);
    m.(properties := map["publicKeyJwk" := KeyProperty(jwk)])
  }

  lemma CanonicalNormal(env: Env, did: string, m: VerificationMethod)
    requires AcceptedMethod(env, did, m) && CanonicalMethod(env, did, m)
    ensures KeepsName(env, did, m) && NormalMethod(env, did, m) == Ok(Completed(env, did, m))
  {
  }

  /** The record of a canonical method decodes to the same id, kind, controller and key; the key id becomes
      the thumbprint and a missing algorithm becomes the default of its curve. */
  lemma CanonicalMethodKept(env: Env, did: string, m: VerificationMethod, recordId: string)
    requires AcceptedMethod(env, did, m) && CanonicalMethod(env, did, m)
    requires recordId == "k0" <==> m.id == did + "#0"
    ensures DecodeMethod(env, did, recordId, PairsText(VmPairs(EncodeMethod(env, did, m, {}).value, did)))
            == Ok(Completed(env, did, m))
  {
    hide DecodeMethod, PairsText, VmPairs, NormalMethod, CanonicalMethod, Completed, EncodeMethod;
    RecordDecodes(env, did, m, recordId);
    CanonicalNormal(env, did, m);
  }

  /** A reference spelled out as the full id it stands for. */
  function Spelled(entry: Relationship, did: string): Relationship {
    if entry.Embedded? then entry else Referenced(Absolute(entry.reference.Resolve(did)))
  }

  function SpelledList(entries: seq<Relationship>, did: string): seq<Relationship> {
    seq(|entries|, i requires 0 <= i < |entries| => Spelled(entries[i], did))
  }

  predicate Names(entries: seq<Relationship>, did: string, id: string) {
    exists i :: 0 <= i < |entries| && entries[i].Referenced? && entries[i].reference.Resolve(did) == id
  }

  predicate DistinctIds(methods: seq<VerificationMethod>) {
    forall i, j :: 0 <= i < j < |methods| ==> methods[i].id != methods[j].id
  }

  /** A list reads back as the ids it named exactly when each method it names keeps its id. */
  lemma ListKeepsTargets(entries: seq<Relationship>, did: string, methods: seq<VerificationMethod>,
                         normal: seq<VerificationMethod>)
    requires |methods| == |normal| && NamesOnly(entries, did, methods) && DistinctIds(methods)
    ensures NormalList(entries, did, methods, normal) == SpelledList(entries, did)
            <==> forall k :: 0 <= k < |methods| && Names(entries, did, methods[k].id) ==> normal[k].id == methods[k].id
  {
    var list, spelled := NormalList(entries, did, methods, normal), SpelledList(entries, did);
    if forall k :: 0 <= k < |methods| && Names(entries, did, methods[k].id) ==> normal[k].id == methods[k].id {
      forall i | 0 <= i < |entries|
        ensures list[i] == spelled[i]
      {
        var k := IndexOf(methods, entries[i].reference.Resolve(did)).value;
        assert Names(entries, did, methods[k].id);
      }
      assert list == spelled;
    }
    if list == spelled {
      forall k | 0 <= k < |methods| && Names(entries, did, methods[k].id)
        ensures normal[k].id == methods[k].id
      {
        var i :| 0 <= i < |entries| && entries[i].Referenced? && entries[i].reference.Resolve(did) == methods[k].id;
        assert IndexOf(methods, methods[k].id) == Some(k);
        assert list[i] == spelled[i];
      }
    }
  }

  lemma NormalParts(env: Env, doc: Document)
    requires AcceptedMethods(env, doc) && Normal(env, doc).Ok?
    requires forall i :: 0 <= i < |IdentityFirst(doc.id.ToString(), doc.verificationMethod)| ==>
               AcceptedMethod(env, doc.id.ToString(), IdentityFirst(doc.id.ToString(), doc.verificationMethod)[i])
    ensures var n := Normal(env, doc).value;
            var did := doc.id.ToString();
            var methods := IdentityFirst(did, doc.verificationMethod);
            && n.id == doc.id && n.alsoKnownAs == doc.alsoKnownAs && n.controller == NormalController(doc.controller)
            && n.propertySet == map[] && n.publicKey == []
            && NormalMethods(env, did, methods) == Ok(n.verificationMethod) && |n.verificationMethod| == |methods|
            && n.relationships == NormalRelationships(doc.relationships, did, methods, n.verificationMethod)
            && NormalServices(doc.service) == Ok(n.service)
            && Typed(env, n)
  {
  }

  /** Accepted methods have distinct ids, in the document's order and in the order of the records. */
  lemma AcceptedIdsDistinct(env: Env, did: string, methods: seq<VerificationMethod>, vms: seq<EncodedVm>)
    requires Encodes(env, did, methods, vms) && DistinctFragments(vms)
    ensures DistinctIds(methods)
  {
    hide EncodeMethod;
    forall i, j | 0 <= i < j < |methods|
      ensures methods[i].id != methods[j].id
    {
      EncodedId(env, did, methods[i]);
      EncodedId(env, did, methods[j]);
      assert (did + "#" + vms[i].fragment)[|did| + 1..] == vms[i].fragment;
      assert (did + "#" + vms[j].fragment)[|did| + 1..] == vms[j].fragment;
    }
  }

  /** Each method that a list names keeps its name. */
  predicate NamedKept(env: Env, did: string, methods: seq<VerificationMethod>, entries: seq<Relationship>)
    requires forall k :: 0 <= k < |methods| ==> AcceptedMethod(env, did, methods[k])
  {
    forall k :: 0 <= k < |methods| && Names(entries, did, methods[k].id) ==> KeepsName(env, did, methods[k])
  }

  lemma NamedKeptInOrder(env: Env, doc: Document, entries: seq<Relationship>)
    requires AcceptedMethods(env, doc)
    requires forall k :: 0 <= k < |IdentityFirst(doc.id.ToString(), doc.verificationMethod)| ==>
               AcceptedMethod(env, doc.id.ToString(), IdentityFirst(doc.id.ToString(), doc.verificationMethod)[k])
    ensures NamedKept(env, doc.id.ToString(), doc.verificationMethod, entries)
            <==> NamedKept(env, doc.id.ToString(), IdentityFirst(doc.id.ToString(), doc.verificationMethod), entries)
  {
    hide KeepsName, AcceptedMethod, Names, IdentityFirst, Did.ToString;
    var did, before := doc.id.ToString(), doc.verificationMethod;
    var after := IdentityFirst(did, before);
    forall i | 0 <= i < |before|
      ensures exists j :: 0 <= j < |after| && after[j] == before[i]
    {
      var j := SameElements(before, after, i);
    }
    forall i | 0 <= i < |after|
      ensures exists j :: 0 <= j < |before| && before[j] == after[i]
    {
      var j := SameElements(after, before, i);
    }
  }

  /** One list of an accepted document against the same list of its normal form. */
  lemma ListKeptIff(env: Env, doc: Document, entries: seq<Relationship>)
    requires MakePlan(env, doc).Ok? && AcceptedMethods(env, doc) && Normal(env, doc).Ok?
    requires NamesOnly(entries, doc.id.ToString(), IdentityFirst(doc.id.ToString(), doc.verificationMethod))
    ensures |Normal(env, doc).value.verificationMethod| == |IdentityFirst(doc.id.ToString(), doc.verificationMethod)|
    ensures NormalList(entries, doc.id.ToString(), IdentityFirst(doc.id.ToString(), doc.verificationMethod),
                       Normal(env, doc).value.verificationMethod) == SpelledList(entries, doc.id.ToString())
            <==> NamedKept(env, doc.id.ToString(), doc.verificationMethod, entries)
  {
    hide MakePlan, Normal, NamesOnly, NormalList, SpelledList, IdentityFirst, Did.ToString, NormalMethod,
      AcceptedMethod, KeepsName, Encodes, DistinctFragments, Names, WireFragment, PlanVms;
    var did := doc.id.ToString();
    var methods := IdentityFirst(did, doc.verificationMethod);
    PlanFacts(env, doc);
    AcceptedWhenEncoded(env, doc);
    IdentityFirstAccepted(env, doc);
    NormalParts(env, doc);
    var normal := Normal(env, doc).value.verificationMethod;
    AcceptedIdsDistinct(env, did, methods, MakePlan(env, doc).value.vms);
    ListKeepsTargets(entries, did, methods, normal);
    forall k | 0 <= k < |methods|
      ensures normal[k].id == methods[k].id <==> KeepsName(env, did, methods[k])
    {
      NormalId(env, did, methods[k]);
    }
    NamedKeptInOrder(env, doc, entries);
  }

  /** Re-indexing never retargets a relationship: whatever the order of the methods, each of the five lists
      of a document that reads back is read back as the ids it named, in order and with duplicates kept, if
      and only if every method that the list names keeps its name. */
  lemma RelationshipsKeepTargets(env: Env, doc: Document, types: seq<u64>, gateways: seq<Gateway>)
    requires EncodeAnswers(env, doc, types, gateways).Ok?
    requires DecodeAnswers(env, doc.id, EncodeAnswers(env, doc, types, gateways).value).Ok?
    ensures AcceptedMethods(env, doc)
    ensures var did, r, methods := doc.id.ToString(), doc.relationships, doc.verificationMethod;
            var n := DecodeAnswers(env, doc.id,
                                   EncodeAnswers(env, doc, types, gateways).value).value.document.relationships;
            && (n.authentication == SpelledList(r.authentication, did)
                <==> NamedKept(env, did, methods, r.authentication))
            && (n.assertionMethod == SpelledList(r.assertionMethod, did)
                <==> NamedKept(env, did, methods, r.assertionMethod))
            && (n.capabilityInvocation == SpelledList(r.capabilityInvocation, did)
                <==> NamedKept(env, did, methods, r.capabilityInvocation))
            && (n.capabilityDelegation == SpelledList(r.capabilityDelegation, did)
                <==> NamedKept(env, did, methods, r.capabilityDelegation))
            && (n.keyAgreement == SpelledList(r.keyAgreement, did)
                <==> NamedKept(env, did, methods, r.keyAgreement))
  {
    hide EncodeAnswers, DecodeAnswers, MakePlan, Normal, AcceptedMethods, NamedKept, NamesOnly, NormalList, SpelledList,
      IdentityFirst, Did.ToString, NormalMethods, TypesRead;
    var r := doc.relationships;
    EncodeThenDecode(env, doc, types, gateways);
    EncodedPlan(env, doc, types, gateways);
    EncodedRelationships(env, doc);
    IdentityFirstAccepted(env, doc);
    NormalParts(env, doc);
    ListKeptIff(env, doc, r.authentication);
    ListKeptIff(env, doc, r.assertionMethod);
    ListKeptIff(env, doc, r.capabilityInvocation);
    ListKeptIff(env, doc, r.capabilityDelegation);
    ListKeptIff(env, doc, r.keyAgreement);
  }

  // ------------------------------------------------------------------ whom the ids read back name

  predicate NoDuplicates(names: seq<string>) {
    forall i, j :: 0 <= i < j < |names| ==> names[i] != names[j]
  }

  function WireFragments(env: Env, did: string, methods: seq<VerificationMethod>): seq<string>
    requires forall k :: 0 <= k < |methods| ==> AcceptedMethod(env, did, methods[k])
  {
    seq(|methods|, k requires 0 <= k < |methods| => WireFragment(env, did, methods[k]))
  }

  /** Position that an element has after the move. */
  function TargetIndex(i: nat, j: nat): nat {
    if j == i then 0 else if j < i then j + 1 else j
  }

  lemma NoDuplicatesMoved(names: seq<string>, i: nat)
    requires i < |names|
    ensures NoDuplicates(MoveToFront(names, i)) <==> NoDuplicates(names)
  {
    var moved := MoveToFront(names, i);
    hide MoveToFront;
    forall j | 0 <= j < |names|
      ensures moved[j] == names[SourceIndex(i, j)]
      ensures names[j] == moved[TargetIndex(i, j)]
    {
      MoveToFrontAt(names, i, j);
      MoveToFrontAt(names, i, TargetIndex(i, j));
    }
    if NoDuplicates(names) {
      forall j, k | 0 <= j < k < |names|
        ensures moved[j] != moved[k]
      {
        assert SourceIndex(i, j) != SourceIndex(i, k);
      }
    }
    if NoDuplicates(moved) {
      forall j, k | 0 <= j < k < |names|
        ensures names[j] != names[k]
      {
        assert TargetIndex(i, j) != TargetIndex(i, k);
      }
    }
  }

  /** The names in the order of the records. */
  function NamesInOrder(names: seq<string>, identity: Option<nat>): seq<string>
    requires identity.Some? ==> identity.value < |names|
  {
    if identity.Some? then MoveToFront(names, identity.value) else names
  }

  lemma WireFragmentsInOrder(env: Env, did: string, methods: seq<VerificationMethod>)
    requires forall k :: 0 <= k < |methods| ==> AcceptedMethod(env, did, methods[k])
    requires forall k :: 0 <= k < |methods| ==> AcceptedMethod(env, did, IdentityFirst(did, methods)[k])
    ensures WireFragments(env, did, IdentityFirst(did, methods))
            == NamesInOrder(WireFragments(env, did, methods), IndexOf(methods, did + "#0"))
  {
    hide WireFragment, AcceptedMethod, MoveToFront;
    var after, names := IdentityFirst(did, methods), WireFragments(env, did, methods);
    if IndexOf(methods, did + "#0").Some? {
      var i := IndexOf(methods, did + "#0").value;
      forall j | 0 <= j < |methods|
        ensures WireFragments(env, did, after)[j] == MoveToFront(names, i)[j]
      {
        MoveToFrontAt(methods, i, j);
        MoveToFrontAt(names, i, j);
      }
    }
  }

  lemma DistinctInOrder(env: Env, did: string, methods: seq<VerificationMethod>)
    requires forall k :: 0 <= k < |methods| ==> AcceptedMethod(env, did, methods[k])
    requires forall k :: 0 <= k < |methods| ==> AcceptedMethod(env, did, IdentityFirst(did, methods)[k])
    ensures NoDuplicates(WireFragments(env, did, IdentityFirst(did, methods)))
            <==> NoDuplicates(WireFragments(env, did, methods))
  {
    hide WireFragment, AcceptedMethod, MoveToFront, NoDuplicates, IdentityFirst;
    WireFragmentsInOrder(env, did, methods);
    if IndexOf(methods, did + "#0").Some? {
      NoDuplicatesMoved(WireFragments(env, did, methods), IndexOf(methods, did + "#0").value);
    }
  }

  lemma NormalIds(env: Env, doc: Document)
    requires AcceptedMethods(env, doc) && Normal(env, doc).Ok?
    requires forall k :: 0 <= k < |IdentityFirst(doc.id.ToString(), doc.verificationMethod)| ==>
               AcceptedMethod(env, doc.id.ToString(), IdentityFirst(doc.id.ToString(), doc.verificationMethod)[k])
    ensures var did := doc.id.ToString();
            var methods := IdentityFirst(did, doc.verificationMethod);
            && |Normal(env, doc).value.verificationMethod| == |methods|
            && forall k :: 0 <= k < |methods| ==>
                 Normal(env, doc).value.verificationMethod[k].id == did + "#" + WireFragment(env, did, methods[k])
  {
    hide Normal, WireFragment, NormalMethod, AcceptedMethod, IdentityFirst, Did.ToString;
    var did := doc.id.ToString();
    var methods := IdentityFirst(did, doc.verificationMethod);
    NormalParts(env, doc);
    forall k | 0 <= k < |methods|
      ensures Normal(env, doc).value.verificationMethod[k].id == did + "#" + WireFragment(env, did, methods[k])
    {
      NormalId(env, did, methods[k]);
    }
  }

  /** Read back, each entry still finds the method that the entry it was written for found. */
  predicate EntriesFollow(entries: seq<Relationship>, did: string, methods: seq<VerificationMethod>,
                          after: seq<Relationship>, normal: seq<VerificationMethod>) {
    && |after| == |entries|
    && forall i :: 0 <= i < |entries| && entries[i].Referenced? ==>
         && after[i].Referenced?
         && IndexOf(normal, after[i].reference.Resolve(did)) == IndexOf(methods, entries[i].reference.Resolve(did))
  }

  /** No method that the list names is read back under the name of an earlier one. */
  predicate NamedFirst(env: Env, did: string, methods: seq<VerificationMethod>, entries: seq<Relationship>)
    requires forall k :: 0 <= k < |methods| ==> AcceptedMethod(env, did, methods[k])
  {
    forall k :: 0 <= k < |methods| && Names(entries, did, methods[k].id) ==> AloneAt(env, did, methods, k)
  }

  lemma SameFragment(did: string, f: string, g: string)
    ensures did + "#" + f == did + "#" + g <==> f == g
  {
    assert (did + "#" + f)[|did| + 1..] == f && (did + "#" + g)[|did| + 1..] == g;
  }

  lemma FoundAt(methods: seq<VerificationMethod>, k: nat)
    requires k < |methods|
    ensures IndexOf(methods, methods[k].id) == Some(k) <==> forall j :: 0 <= j < k ==> methods[j].id != methods[k].id
  {
  }

  lemma ListFollowsIff(env: Env, did: string, methods: seq<VerificationMethod>, normal: seq<VerificationMethod>,
                       entries: seq<Relationship>)
    requires forall k :: 0 <= k < |methods| ==> AcceptedMethod(env, did, methods[k])
    requires |normal| == |methods| && NamesOnly(entries, did, methods) && DistinctIds(methods)
    requires forall k :: 0 <= k < |methods| ==> normal[k].id == did + "#" + WireFragment(env, did, methods[k])
    ensures EntriesFollow(entries, did, methods, NormalList(entries, did, methods, normal), normal)
            <==> NamedFirst(env, did, methods, entries)
  {
    hide WireFragment, AcceptedMethod, IndexOf;
    var after := NormalList(entries, did, methods, normal);
    forall i | 0 <= i < |entries|
      ensures after[i].Referenced?
      ensures IndexOf(normal, after[i].reference.Resolve(did)) == IndexOf(methods, entries[i].reference.Resolve(did))
              <==> AloneAt(env, did, methods, IndexOf(methods, entries[i].reference.Resolve(did)).value)
    {
      var k := IndexOf(methods, entries[i].reference.Resolve(did)).value;
      assert after[i] == Referenced(Absolute(normal[k].id));
      FoundAt(normal, k);
      FragmentsTell(env, did, methods, normal, k);
    }
    hide NormalList;
    if NamedFirst(env, did, methods, entries) {
      forall i | 0 <= i < |entries|
        ensures AloneAt(env, did, methods, IndexOf(methods, entries[i].reference.Resolve(did)).value)
      {
        var k := IndexOf(methods, entries[i].reference.Resolve(did)).value;
        assert Names(entries, did, methods[k].id);
      }
    }
    if EntriesFollow(entries, did, methods, after, normal) {
      forall k | 0 <= k < |methods| && Names(entries, did, methods[k].id)
        ensures AloneAt(env, did, methods, k)
      {
        var i :| 0 <= i < |entries| && entries[i].Referenced? && entries[i].reference.Resolve(did) == methods[k].id;
        FoundAt(methods, k);
      }
    }
  }

  predicate AloneAt(env: Env, did: string, methods: seq<VerificationMethod>, k: nat)
    requires k < |methods| && forall k :: 0 <= k < |methods| ==> AcceptedMethod(env, did, methods[k])
  {
    forall j :: 0 <= j < k ==> WireFragment(env, did, methods[j]) != WireFragment(env, did, methods[k])
  }

  lemma FragmentsTell(env: Env, did: string, methods: seq<VerificationMethod>, normal: seq<VerificationMethod>, k: nat)
    requires forall k :: 0 <= k < |methods| ==> AcceptedMethod(env, did, methods[k])
    requires |normal| == |methods| && k < |methods|
    requires forall k :: 0 <= k < |methods| ==> normal[k].id == did + "#" + WireFragment(env, did, methods[k])
    ensures (forall j :: 0 <= j < k ==> normal[j].id != normal[k].id) <==> AloneAt(env, did, methods, k)
  {
    hide WireFragment, AcceptedMethod;
    forall j | 0 <= j < k
      ensures normal[j].id == normal[k].id
              <==> WireFragment(env, did, methods[j]) == WireFragment(env, did, methods[k])
    {
      SameFragment(did, WireFragment(env, did, methods[j]), WireFragment(env, did, methods[k]));
    }
  }

  /** When the ids read back are unambiguous: the methods read back have distinct ids if and only if the
      fragments they are read back under are distinct, and the entries of a list still find the methods they
      named if and only if none of those is read back under the name of one before it. */
  lemma TargetsUnambiguousIff(env: Env, doc: Document, types: seq<u64>, gateways: seq<Gateway>)
    requires EncodeAnswers(env, doc, types, gateways).Ok?
    requires DecodeAnswers(env, doc.id, EncodeAnswers(env, doc, types, gateways).value).Ok?
    ensures AcceptedMethods(env, doc)
    ensures forall k :: 0 <= k < |IdentityFirst(doc.id.ToString(), doc.verificationMethod)| ==>
              AcceptedMethod(env, doc.id.ToString(), IdentityFirst(doc.id.ToString(), doc.verificationMethod)[k])
    ensures var did, r := doc.id.ToString(), doc.relationships;
            var methods := IdentityFirst(did, doc.verificationMethod);
            var n := DecodeAnswers(env, doc.id, EncodeAnswers(env, doc, types, gateways).value).value.document;
            var m := n.relationships;
            && (DistinctIds(n.verificationMethod) <==> NoDuplicates(WireFragments(env, did, doc.verificationMethod)))
            && (EntriesFollow(r.authentication, did, methods, m.authentication, n.verificationMethod)
                <==> NamedFirst(env, did, methods, r.authentication))
            && (EntriesFollow(r.assertionMethod, did, methods, m.assertionMethod, n.verificationMethod)
                <==> NamedFirst(env, did, methods, r.assertionMethod))
            && (EntriesFollow(r.capabilityInvocation, did, methods, m.capabilityInvocation, n.verificationMethod)
                <==> NamedFirst(env, did, methods, r.capabilityInvocation))
            && (EntriesFollow(r.capabilityDelegation, did, methods, m.capabilityDelegation, n.verificationMethod)
                <==> NamedFirst(env, did, methods, r.capabilityDelegation))
            && (EntriesFollow(r.keyAgreement, did, methods, m.keyAgreement, n.verificationMethod)
                <==> NamedFirst(env, did, methods, r.keyAgreement))
  {
    hide EncodeAnswers, DecodeAnswers, MakePlan, Normal, NamesOnly, NormalList, IdentityFirst, Did.ToString,
      NormalMethods, TypesRead, AcceptedMethod, Encodes, DistinctFragments, WireFragment, DistinctIds, EntriesFollow,
      NamedFirst, PlanVms, NoDuplicates, WireFragments;
    var did, r := doc.id.ToString(), doc.relationships;
    var methods := IdentityFirst(did, doc.verificationMethod);
    EncodeThenDecode(env, doc, types, gateways);
    EncodedPlan(env, doc, types, gateways);
    EncodedRelationships(env, doc);
    IdentityFirstAccepted(env, doc);
    NormalParts(env, doc);
    NormalIds(env, doc);
    PlanFacts(env, doc);
    AcceptedWhenEncoded(env, doc);
    AcceptedIdsDistinct(env, did, methods, MakePlan(env, doc).value.vms);
    var normal := Normal(env, doc).value.verificationMethod;
    ListFollowsIff(env, did, methods, normal, r.authentication);
    ListFollowsIff(env, did, methods, normal, r.assertionMethod);
    ListFollowsIff(env, did, methods, normal, r.capabilityInvocation);
    ListFollowsIff(env, did, methods, normal, r.capabilityDelegation);
    ListFollowsIff(env, did, methods, normal, r.keyAgreement);
    DistinctInOrder(env, did, doc.verificationMethod);
    IdsDistinctIff(env, did, methods, normal);
  }

  lemma IdsDistinctIff(env: Env, did: string, methods: seq<VerificationMethod>, normal: seq<VerificationMethod>)
    requires forall k :: 0 <= k < |methods| ==> AcceptedMethod(env, did, methods[k])
    requires |normal| == |methods|
    requires forall k :: 0 <= k < |methods| ==> normal[k].id == did + "#" + WireFragment(env, did, methods[k])
    ensures DistinctIds(normal) <==> NoDuplicates(WireFragments(env, did, methods))
  {
    hide WireFragment, AcceptedMethod;
    var names := WireFragments(env, did, methods);
    forall j, k | 0 <= j < |methods| && 0 <= k < |methods|
      ensures normal[j].id == normal[k].id <==> names[j] == names[k]
    {
      SameFragment(did, names[j], names[k]);
    }
  }

  // ------------------------------------------------------------------ the identity key

  predicate IsIdentity(doc: Document, k: int) {
    0 <= k < |doc.verificationMethod| && doc.verificationMethod[k].id == doc.id.ToString() + "#0"
  }

  /** The curve is one of the two that an identity record can hold, and the registered type is its type. */
  predicate TypeOfCurve(m: VerificationMethod, keyType: nat)
    requires "publicKeyJwk" in m.properties && m.properties["publicKeyJwk"].KeyProperty?
  {
    var curve := CurveName(KeyOf(m).material);
    && (keyType == 0 <==> curve == "Ed25519")
    && (keyType == 3 <==> curve == "X25519")
    && curve in {"Ed25519", "X25519"}
  }

  /** The record `k0` always holds the bytes of the DID's identity key and is named in each of the four
      mandatory lists. It is an Ed25519 key exactly when that is the curve that `#0` names; the one other
      curve it can name is X25519. */
  lemma IdentityIsRecordZero(env: Env, doc: Document)
    requires MakePlan(env, doc).Ok?
    ensures AcceptedMethods(env, doc)
    ensures var plan := MakePlan(env, doc).value;
            && DecodeIdentityKey(env, doc.id).Ok?
            && plan.vms != [] && plan.vms[0].fragment == "0"
            && plan.vms[0].keyBase64 == Base64Url.Encode(DecodeIdentityKey(env, doc.id).value)
            && (exists k :: IsIdentity(doc, k))
            && (forall k :: IsIdentity(doc, k) ==> TypeOfCurve(doc.verificationMethod[k], plan.vms[0].keyType))
            && |plan.lists| == 5
            && forall i :: 0 <= i < 4 ==>
                 && var labels := LookupLabels(plan.vms, doc.id.ToString(), plan.lists[i].ids);
                 && labels.Some? && "k0" in labels.value
                 && Get(PairsMap(plan.listPairs), plan.lists[i].code) == Some(Join(labels.value, ','))
  {
    hide MakePlan, MoveToFront, ResolveLists, ListPairs, PlanServices, AllScalar, DistinctCodes, Codes, Join, Encodes,
      PairsMap, LookupLabels, Base64Url.Encode, Did.ToString, PlanVms;
    var did := doc.id.ToString();
    var plan := MakePlan(env, doc).value;
    PlanFacts(env, doc);
    AcceptedWhenEncoded(env, doc);
    IdentityKeyFirst(env, doc);
    IdentityCurve(env, doc);
    hide EncodeMethod, AcceptedMethods;
    ListEntries(doc.relationships, did);
    ListCodes(doc.relationships, did);
    ListPairsSpell(plan.vms, did, plan.lists);
    forall i | 0 <= i < 4
      ensures var labels := LookupLabels(plan.vms, did, plan.lists[i].ids);
              && labels.Some? && "k0" in labels.value
              && Get(PairsMap(plan.listPairs), plan.lists[i].code) == Some(Join(labels.value, ','))
    {
      assert did + "#0" in plan.lists[i].ids;
      assert ListSpelled(plan.vms, did, plan.lists[i], PairsMap(plan.listPairs));
      LabelZero(plan.vms, did, plan.lists[i].ids);
    }
  }

  lemma WireTypeOfCurve(m: KeyMaterial)
    requires ToWireKey(m).Ok?
    ensures ToWireKey(m).value.keyType == 0 <==> CurveName(m) == "Ed25519"
    ensures ToWireKey(m).value.keyType == 3 <==> CurveName(m) == "X25519"
  {
  }

  lemma IdentityCurve(env: Env, doc: Document)
    requires PlanVms(env, doc).Ok?
    ensures AcceptedMethods(env, doc)
    ensures exists k :: IsIdentity(doc, k)
    ensures forall k :: IsIdentity(doc, k) ==>
              TypeOfCurve(doc.verificationMethod[k], PlanVms(env, doc).value[0].keyType)
  {
    hide ToWireKey, Base64Url.Encode, Did.ToString, CurveName, PlanVms, IdentityFirst;
    var did := doc.id.ToString();
    var methods := IdentityFirst(did, doc.verificationMethod);
    var vms := PlanVms(env, doc).value;
    AcceptedWhenEncoded(env, doc);
    IdentityKeyFirst(env, doc);
    AcceptedIdsDistinct(env, did, methods, vms);
    EncodedId(env, did, methods[0]);
    assert methods[0].id == did + "#0";
    var source := SameElements(methods, doc.verificationMethod, 0);
    WireTypeOfCurve(KeyOf(methods[0]).material);
    assert IsIdentity(doc, source);
    forall k | IsIdentity(doc, k)
      ensures doc.verificationMethod[k] == methods[0]
    {
      var j := SameElements(doc.verificationMethod, methods, k);
    }
  }

  lemma LabelZero(vms: seq<EncodedVm>, did: string, ids: seq<string>)
    requires vms != [] && vms[0].fragment == "0" && did + "#0" in ids && LookupLabels(vms, did, ids).Some?
    ensures "k0" in LookupLabels(vms, did, ids).value
  {
    var i :| 0 <= i < |ids| && ids[i] == did + "#0";
    assert did + "#" + vms[0].fragment == ids[i];
    assert LookupLabel(vms, did, ids[i], 0) == Some(VmLabel(0));
    assert VmLabel(0) == "k0";
    assert LookupLabels(vms, did, ids).value[i] == "k0";
  }

  lemma IdentityKeyFirst(env: Env, doc: Document)
    requires PlanVms(env, doc).Ok?
    ensures DecodeIdentityKey(env, doc.id).Ok?
    ensures var vm := PlanVms(env, doc).value[0];
            vm.keyBase64 == Base64Url.Encode(DecodeIdentityKey(env, doc.id).value) && vm.keyType in {0, 3}
  {
    hide ToWireKey, Base64Url.Encode, Did.ToString;
    var did := doc.id.ToString();
    AcceptedWhenEncoded(env, doc);
    var m := IdentityFirst(did, doc.verificationMethod)[0];
    var vm := PlanVms(env, doc).value[0];
    assert EncodeMethod(env, did, m, {}) == Ok(vm);
    hide PlanVms, EncodeMethod;
    var wire := ToWireKey(KeyOf(m).material).value;
    Base64Url.EncodeInjective(wire.raw, DecodeIdentityKey(env, doc.id).value);
  }
}

/** The normal form that a document takes on the wire, stated on documents alone: what a reader
    of the published records sees in place of the document that was encoded. */
module DhtNormal {
  import opened Wrappers
  import opened Text
  import opened DidDocument
  import opened DhtEncode
  import opened DhtDecode

  // ------------------------------------------------------------------ verification methods

  predicate AcceptedMethod(env: Env, did: string, m: VerificationMethod) {
    EncodeMethod(env, did, m, {}).Ok?
  }

  function KeyOf(m: VerificationMethod): Jwk
    requires "publicKeyJwk" in m.properties && m.properties["publicKeyJwk"].KeyProperty?
  {
    m.properties["publicKeyJwk"].jwk
  }

  /** The key as a reader reconstructs it from its wire bytes. */
  function ReadBackKey(env: Env, m: VerificationMethod): Result<ParsedKey, DhtError>
    requires "publicKeyJwk" in m.properties && m.properties["publicKeyJwk"].KeyProperty?
    requires ToWireKey(KeyOf(m).material).Ok?
  {
    var wire := ToWireKey(KeyOf(m).material).value;
    ParseKey(env, Decimal(wire.keyType), wire.raw)
  }

  /** A method keeps its id and controller; its key loses everything but the key itself and its
      algorithm, and is named by its thumbprint. A method that was itself named by its
      thumbprint is renamed if the thumbprint changes. */
  function NormalMethod(env: Env, did: string, m: VerificationMethod): Result<VerificationMethod, DhtError>
    requires AcceptedMethod(env, did, m)
  {
    var jwk := KeyOf(m);
    var parsed :- ReadBackKey(env, m);
    match env.thumbprint(parsed.material, map[])
    case None => Err(InvalidPublicKey)
    case Some(kid) =>
      var fragment := m.id[|did| + 1..];
      var renamed := fragment != "0" && env.thumbprint(jwk.material, jwk.rest) == Some(fragment);
      Ok(KeyMethod(
           did + "#" + if renamed then kid else fragment,
           m.controller,
           Jwk(parsed.material, Some(jwk.alg.GetOr(parsed.defaultAlgorithm)), Some(kid), map[])))
  }

  function NormalMethods(env: Env, did: string,
                         methods: seq<VerificationMethod>): (r: Result<seq<VerificationMethod>, DhtError>)
    requires forall i :: 0 <= i < |methods| ==> AcceptedMethod(env, did, methods[i])
    ensures r.Ok? ==> |r.value| == |methods|
    ensures r.Ok? ==> forall i :: 0 <= i < |methods| ==> NormalMethod(env, did, methods[i]) == Ok(r.value[i])
    ensures r.Ok? <==> forall i :: 0 <= i < |methods| ==> NormalMethod(env, did, methods[i]).Ok?
  {
    if methods == [] then Ok([])
    else
      var m :- NormalMethod(env, did, methods[0]);
      var rest :- NormalMethods(env, did, methods[1..]);
      Ok([m] + rest)
  }

  /** First position of the method with a given id. */
  function IndexOf(methods: seq<VerificationMethod>, id: string): (r: Option<nat>)
    ensures r.Some? ==> r.value < |methods| && methods[r.value].id == id
    ensures r.Some? ==> forall i :: 0 <= i < r.value ==> methods[i].id != id
    ensures r.None? ==> forall i :: 0 <= i < |methods| ==> methods[i].id != id
  {
    if methods == [] then None
    else if methods[0].id == id then Some(0)
    else
      match IndexOf(methods[1..], id)
      case None => None
      case Some(i) => Some(i + 1)
  }

  /** The methods with `#0` moved to the front. */
  function IdentityFirst(did: string, methods: seq<VerificationMethod>): (r: seq<VerificationMethod>)
    ensures |r| == |methods| && multiset(r) == multiset(methods)
  {
    match IndexOf(methods, did + "#0")
    case None => methods
    case Some(i) => MoveToFront(methods, i)
  }

  // ------------------------------------------------------------------ relationships

  /** Each reference becomes the full id its method has on the wire. */
  function NormalList(entries: seq<Relationship>, did: string, methods: seq<VerificationMethod>,
                      normal: seq<VerificationMethod>): (r: seq<Relationship>)
    requires |methods| == |normal|
    ensures |r| == |entries|
  {
    seq(|entries|, i requires 0 <= i < |entries| => NormalEntry(entries[i], did, methods, normal))
  }

  function NormalEntry(entry: Relationship, did: string, methods: seq<VerificationMethod>,
                       normal: seq<VerificationMethod>): Relationship
    requires |methods| == |normal|
  {
    match entry
    case Embedded(_) => entry
    case Referenced(reference) =>
      match IndexOf(methods, reference.Resolve(did))
      case None => entry
      case Some(i) => Referenced(Absolute(normal[i].id))
  }

  function NormalRelationships(r: Relationships, did: string, methods: seq<VerificationMethod>,
                               normal: seq<VerificationMethod>): Relationships
    requires |methods| == |normal|
  {
    Relationships(
      NormalList(r.authentication, did, methods, normal),
      NormalList(r.assertionMethod, did, methods, normal),
      NormalList(r.capabilityInvocation, did, methods, normal),
      NormalList(r.capabilityDelegation, did, methods, normal),
      NormalList(r.keyAgreement, did, methods, normal))
  }

  // ------------------------------------------------------------------ services and controllers

  /** A one-element list becomes its element. */
  function NormalItems(items: seq<string>): Json {
    if |items| == 1 then JString(items[0]) else StringArray(items)
  }

  function NormalKind(items: seq<string>): OneOrMany {
    if |items| == 1 then One(items[0]) else Many(items)
  }

  function NormalValue(value: Json): Json {
    match PropertyStrings(value)
    case None => value
    case Some(items) => NormalItems(items)
  }

  /** Endpoints become a list; a lone empty endpoint cannot be read back. A property under a
      reserved name takes the place of the field it is named after. */
  function NormalService(s: Service): Result<Service, DhtError> {
    match EndpointStrings(s.endpoint)
    case None => Err(InvalidDocument)
    case Some(endpoints) =>
      if endpoints == [""] then Err(InvalidDocument)
      else
        Ok(Service(
             s.id,
             if "type" in s.properties then
               match PropertyStrings(s.properties["type"]) {
                 case None => s.kind
                 case Some(items) => NormalKind(items)
               }
             else s.kind,
             Some(if "serviceEndpoint" in s.properties then NormalValue(s.properties["serviceEndpoint"])
                  else StringArray(endpoints)),
             map k | k in s.properties.Keys - {"type", "serviceEndpoint"} :: NormalValue(s.properties[k])))
  }

  function NormalServices(services: seq<Service>): (r: Result<seq<Service>, DhtError>)
    ensures r.Ok? ==> |r.value| == |services|
    ensures r.Ok? ==> forall i :: 0 <= i < |services| ==> NormalService(services[i]) == Ok(r.value[i])
    ensures r.Ok? <==> forall i :: 0 <= i < |services| ==> NormalService(services[i]).Ok?
  {
    if services == [] then Ok([])
    else
      var s :- NormalService(services[0]);
      var rest :- NormalServices(services[1..]);
      Ok([s] + rest)
  }

  /** One controller is a scalar; an empty list reads back as one empty controller. */
  function NormalController(c: Option<OneOrMany>): Option<OneOrMany> {
    match c
    case None => None
    case Some(One(value)) => c
    case Some(Many(values)) => Some(if values == [] then One("") else NormalKind(values))
  }

  // ------------------------------------------------------------------ documents

  predicate AcceptedMethods(env: Env, doc: Document) {
    forall i :: 0 <= i < |doc.verificationMethod| ==> AcceptedMethod(env, doc.id.ToString(), doc.verificationMethod[i])
  }

  /** What a reader of the encoded document gets, or the error that reading it gives. */
  function Normal(env: Env, doc: Document): Result<Document, DhtError>
    requires AcceptedMethods(env, doc)
  {
    var did := doc.id.ToString();
    var methods := IdentityFirst(did, doc.verificationMethod);
    assert forall i :: 0 <= i < |methods| ==> AcceptedMethod(env, did, methods[i]) by {
      forall i | 0 <= i < |methods|
        ensures AcceptedMethod(env, did, methods[i])
      {
        assert methods[i] in multiset(methods);
      }
    }
    var normal :- NormalMethods(env, did, methods);
    var services :- NormalServices(doc.service);
    var d := Document(doc.id, doc.alsoKnownAs, NormalController(doc.controller), normal,
                      NormalRelationships(doc.relationships, did, methods, normal), services, map[], []);
    if Typed(env, d) then Ok(d) else Err(InvalidDocument)
  }
}

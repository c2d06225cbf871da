/** DID documents as the `did:dht` codec sees them, and the parts of the outside world that the
    codec consults: DID and URI syntax, curve arithmetic, key thumbprints and z-base-32. */
module DidDocument {
  import opened Wrappers
  import opened Bytes

  datatype Json =
    | JNull
    | JBool(b: bool)
    | JNumber(n: int)
    | JString(s: string)
    | JArray(items: seq<Json>)
    | JObject(members: map<string, Json>)

  datatype OneOrMany = One(value: string) | Many(values: seq<string>)

  /** `did:<name>:<id>`. */
  datatype Did = Did(name: string, id: string) {
    function ToString(): string {
      "did:" + name + ":" + id
    }
  }

  /** The members of a public JWK that enter its thumbprint (section 3.2 of RFC 7638). */
  datatype KeyMaterial =
    KeyMaterial(kty: Option<string>, crv: Option<string>, x: Option<bytes>, y: Option<bytes>)

  datatype Jwk = Jwk(material: KeyMaterial, alg: Option<string>, kid: Option<string>, rest: map<string, Json>)

  /** A verification method property: one that reads as a JWK, or any other JSON. */
  datatype Property = KeyProperty(jwk: Jwk) | JsonProperty(json: Json)

  datatype VerificationMethod =
    VerificationMethod(id: string, kind: string, controller: string, properties: map<string, Property>)

  /** A DID URL, or the part of one that follows the document's own DID. */
  datatype Reference = Absolute(url: string) | Relative(suffix: string) {
    function Resolve(did: string): string {
      match this
      case Absolute(url) => url
      case Relative(suffix) => did + suffix
    }
  }

  datatype Relationship = Embedded(method_: VerificationMethod) | Referenced(reference: Reference)

  datatype Relationships = Relationships(
    authentication: seq<Relationship>,
    assertionMethod: seq<Relationship>,
    capabilityInvocation: seq<Relationship>,
    capabilityDelegation: seq<Relationship>,
    keyAgreement: seq<Relationship>)

  datatype Service =
    Service(id: string, kind: OneOrMany, endpoint: Option<Json>, properties: map<string, Json>)

  datatype Document = Document(
    id: Did,
    alsoKnownAs: seq<string>,
    controller: Option<OneOrMany>,
    verificationMethod: seq<VerificationMethod>,
    relationships: Relationships,
    service: seq<Service>,
    propertySet: map<string, Json>,
    publicKey: seq<Json>)

  datatype DhtError =
    | InvalidDocument
    | MethodNotSupported(name: string)
    | NotFound
    | InvalidDocumentLength(min: nat, max: nat, length: nat)
    | InvalidGatewayUri
    | InvalidPublicKey
    | InvalidPublicKeyLength(expected: nat, found: nat)
    | InvalidPublicKeyType(keyType: string)
    | InvalidSignature
    | GatewayRejected(status: nat, sequence: nat)
    | SignerFailed
    | ValueTooLarge(size: nat)
    | TimeBeforeEpoch
    | SequenceOverflow
    | TransportFailed

  datatype Curve = Secp256k1 | P256

  datatype Env = Env(
    isDid: string -> bool,
    isDidUrl: string -> bool,
    isUri: string -> bool,
    thumbprint: (KeyMaterial, map<string, Json>) -> Option<string>,
    isEd25519Point: bytes -> bool,
    decompress: (Curve, bytes) -> Option<(bytes, bytes)>,
    z32: string -> Option<bytes>,
    isDnsName: string -> bool)

  // ------------------------------------------------------------------ typed documents

  predicate TypedController(env: Env, c: OneOrMany) {
    match c
    case One(value) => env.isDid(value)
    case Many(values) => forall i :: 0 <= i < |values| ==> env.isDid(values[i])
  }

  predicate TypedMethod(env: Env, m: VerificationMethod) {
    env.isDidUrl(m.id) && env.isDid(m.controller)
  }

  /** The syntax that deserialising a `Document` enforces on its identifiers. */
  predicate Typed(env: Env, d: Document) {
    && (forall i :: 0 <= i < |d.alsoKnownAs| ==> env.isUri(d.alsoKnownAs[i]))
    && (d.controller.Some? ==> TypedController(env, d.controller.value))
    && (forall i :: 0 <= i < |d.verificationMethod| ==> TypedMethod(env, d.verificationMethod[i]))
    && (forall i :: 0 <= i < |d.service| ==> env.isUri(d.service[i].id))
  }

  // ------------------------------------------------------------------ keys

  const OKP_KEY_BYTES: nat := 32
  const EC_KEY_BYTES: nat := 33

  /** Compressed point: parity of `y`, then `x`. */
  function Compress(x: bytes, y: bytes): bytes
    requires |y| == 32
  {
    [if y[31] % 2 == 0 then 2 else 3] + x
  }

  /** A decompressed point compresses to a form that decompresses to the same point. */
  predicate DecompressStable(env: Env, c: Curve, b: bytes) {
    env.decompress(c, b).Some? ==>
      var (x, y) := env.decompress(c, b).value;
      |x| == 32 && |y| == 32 && env.decompress(c, [2 + y[31] % 2] + x) == Some((x, y))
  }

  ghost predicate SoundCurves(env: Env) {
    forall c: Curve, b: bytes :: DecompressStable(env, c, b)
  }

  /** The identity key that a `did:dht` identifier spells. */
  function DecodeIdentityKey(env: Env, did: Did): (r: Result<bytes, DhtError>)
    ensures r.Ok? ==> |r.value| == 32 && did.name == "dht"
  {
    if did.name != "dht" then Err(MethodNotSupported(did.name))
    else
      match env.z32(did.id)
      case None => Err(InvalidPublicKey)
      case Some(key) =>
        if |key| != 32 then Err(InvalidPublicKeyLength(32, |key|))
        else if !env.isEd25519Point(key) then Err(InvalidPublicKey)
        else Ok(key)
  }
}

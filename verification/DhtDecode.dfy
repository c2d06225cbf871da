/** The `did:dht` decoder: DNS answers become a DID document and an optional list of types. */
module DhtDecode {
  import opened Wrappers
  import opened Text
  import opened Bytes
  import opened DidDocument
  import opened DhtRecords
  import Base64Url

  // ------------------------------------------------------------------ verification methods

  datatype ParsedKey = ParsedKey(material: KeyMaterial, defaultAlgorithm: string)

  function OkpMaterial(curve: string, x: bytes): KeyMaterial {
    KeyMaterial(Some("OKP"), Some(curve), Some(x), None)
  }

  function EcMaterial(curve: string, x: bytes, y: bytes): KeyMaterial {
    KeyMaterial(Some("EC"), Some(curve), Some(x), Some(y))
  }

  function ParsePoint(env: Env, curve: Curve, key: bytes): Result<KeyMaterial, DhtError> {
    match env.decompress(curve, key)
    case None => Err(InvalidPublicKey)
    case Some((x, y)) => Ok(EcMaterial(if curve.Secp256k1? then "secp256k1" else "P-256", x, y))
  }

  /** The key of a record of the given registered type. */
  function ParseKey(env: Env, keyType: string, key: bytes): Result<ParsedKey, DhtError> {
    if keyType == "0" then
      if |key| != OKP_KEY_BYTES then Err(InvalidPublicKeyLength(OKP_KEY_BYTES, |key|))
      else if !env.isEd25519Point(key) then Err(InvalidPublicKey)
      else Ok(ParsedKey(OkpMaterial("Ed25519", key), "EdDSA"))
    else if keyType == "1" then
      if |key| != EC_KEY_BYTES then Err(InvalidPublicKeyLength(EC_KEY_BYTES, |key|))
      else
        var material :- ParsePoint(env, Secp256k1, key);
        Ok(ParsedKey(material, "ES256K"))
    else if keyType == "2" then
      if |key| != EC_KEY_BYTES then Err(InvalidPublicKeyLength(EC_KEY_BYTES, |key|))
      else
        var material :- ParsePoint(env, P256, key);
        Ok(ParsedKey(material, "ES256"))
    else if keyType == "3" then
      if |key| != OKP_KEY_BYTES then Err(InvalidPublicKeyLength(OKP_KEY_BYTES, |key|))
      else Ok(ParsedKey(OkpMaterial("X25519", key), "ECDH-ES+A256KW"))
    else Err(InvalidPublicKeyType(keyType))
  }

  function Get(values: map<string, string>, key: string): Option<string> {
    if key in values then Some(values[key]) else None
  }

  function KeyMethod(id: string, controller: string, jwk: Jwk): VerificationMethod {
    VerificationMethod(id, "JsonWebKey", controller, map["publicKeyJwk" := KeyProperty(jwk)])
  }

  /** The method that a parsed key becomes, given the record's own `id`, `a` and `c` values. */
  function BuildMethod(env: Env, did: string, identity: bool, parsed: ParsedKey, id: Option<string>,
                       alg: Option<string>, controller: Option<string>): Result<VerificationMethod, DhtError> {
    match env.thumbprint(parsed.material, map[])
    case None => Err(InvalidPublicKey)
    case Some(thumbprint) =>
      var jwk := Jwk(parsed.material, Some(alg.GetOr(parsed.defaultAlgorithm)), Some(thumbprint), map[]);
      var fragment := if identity then "0" else id.GetOr(thumbprint);
      Ok(KeyMethod(did + "#" + fragment, controller.GetOr(did), jwk))
  }

  function DecodeMethod(env: Env, did: string, recordId: string, data: string): Result<VerificationMethod, DhtError> {
    var values := Properties(data);
    match Get(values, "k")
    case None => Err(InvalidPublicKey)
    case Some(encoded) =>
      match Base64Url.Decode(encoded)
      case None => Err(InvalidPublicKey)
      case Some(key) =>
        var parsed :- ParseKey(env, Get(values, "t").GetOr(""), key);
        BuildMethod(env, did, recordId == "k0", parsed, Get(values, "id"), Get(values, "a"), Get(values, "c"))
  }

  // ------------------------------------------------------------------ services and types

  function StringArray(items: seq<string>): Json {
    JArray(seq(|items|, i requires 0 <= i < |items| => JString(items[i])))
  }

  function ListValue(text: string): Json {
    StringArray(Split(text, ','))
  }

  /** A service property: a list when its text holds a comma. */
  function ExtraValue(text: string): Json {
    if ',' in text then ListValue(text) else JString(text)
  }

  function KindOf(text: string): OneOrMany {
    if ',' in text then Many(Split(text, ',')) else One(text)
  }

  /** A property that came with the record under a name the document reserves takes that place. */
  function AssembleService(id: string, kind: string, endpoint: string, extras: map<string, string>): Service {
    Service(
      id,
      if "type" in extras then KindOf(extras["type"]) else One(kind),
      Some(if "serviceEndpoint" in extras then ExtraValue(extras["serviceEndpoint"]) else ListValue(endpoint)),
      map k | k in extras.Keys - {"type", "serviceEndpoint"} :: ExtraValue(extras[k]))
  }

  function DecodeService(did: string, data: string): Result<Service, DhtError> {
    var values := Properties(data);
    var id := Get(values, "id").GetOr("");
    var kind := Get(values, "t").GetOr("");
    var endpoint := Get(values, "se").GetOr("");
    if id == "" || kind == "" || endpoint == "" then Err(InvalidDocument)
    else Ok(AssembleService(did + "#" + id, kind, endpoint, values - {"id", "t", "se"}))
  }

  function ParseTypes(texts: seq<string>): Result<seq<u64>, DhtError> {
    if texts == [] then Ok([])
    else
      match ParseU64(texts[0])
      case None => Err(InvalidDocument)
      case Some(n) =>
        var rest :- ParseTypes(texts[1..]);
        Ok([n] + rest)
  }

  function DecodeTypes(data: string): Result<seq<u64>, DhtError> {
    match Get(Properties(data), "id")
    case None => Err(InvalidDocument)
    case Some(types) => ParseTypes(Split(types, ','))
  }

  // ------------------------------------------------------------------ relationships

  function KnownIds(labels: seq<string>, ids: map<string, string>): seq<string> {
    if labels == [] then []
    else (if labels[0] in ids then [ids[labels[0]]] else []) + KnownIds(labels[1..], ids)
  }

  function References(ids: seq<string>): seq<Relationship> {
    seq(|ids|, i requires 0 <= i < |ids| => Referenced(Absolute(ids[i])))
  }

  function DecodeList(values: map<string, string>, code: string, ids: map<string, string>,
                      current: seq<Relationship>): seq<Relationship> {
    match Get(values, code)
    case None => current
    case Some(labels) => References(KnownIds(Split(labels, ','), ids))
  }

  function ApplyRoot(r: Relationships, data: string, ids: map<string, string>): Relationships {
    var values := Properties(data);
    Relationships(
      DecodeList(values, "auth", ids, r.authentication),
      DecodeList(values, "asm", ids, r.assertionMethod),
      DecodeList(values, "inv", ids, r.capabilityInvocation),
      DecodeList(values, "del", ids, r.capabilityDelegation),
      DecodeList(values, "agm", ids, r.keyAgreement))
  }

  function ApplyRoots(r: Relationships, roots: seq<string>, ids: map<string, string>): Relationships
    decreases roots
  {
    if roots == [] then r else ApplyRoots(ApplyRoot(r, roots[0], ids), roots[1..], ids)
  }

  const NO_RELATIONSHIPS := Relationships([], [], [], [], [])

  // ------------------------------------------------------------------ the document

  /** What the records read so far have contributed. */
  datatype Progress = Progress(
    aka: seq<string>,
    controller: Option<OneOrMany>,
    methods: seq<VerificationMethod>,
    services: seq<Service>,
    ids: map<string, string>,
    roots: seq<string>,
    types: Option<seq<u64>>)

  const START := Progress([], None, [], [], map[], [], None)

  function ControllerOf(data: string): OneOrMany {
    var parts := Split(data, ',');
    if |parts| == 1 then One(parts[0]) else Many(parts)
  }

  function ApplyRecord(env: Env, did: string, p: Progress, r: TxtRecord): Result<Progress, DhtError> {
    if StartsWith(r.id, "aka") then Ok(p.(aka := Split(r.data, ',')))
    else if StartsWith(r.id, "cnt") then Ok(p.(controller := Some(ControllerOf(r.data))))
    else if StartsWith(r.id, "k") then
      var m :- DecodeMethod(env, did, r.id, r.data);
      Ok(p.(methods := p.methods + [m], ids := p.ids[r.id := m.id]))
    else if StartsWith(r.id, "s") then
      var s :- DecodeService(did, r.data);
      Ok(p.(services := p.services + [s]))
    else if StartsWith(r.id, "typ") then
      var types :- DecodeTypes(r.data);
      Ok(p.(types := Some(types)))
    else if StartsWith(r.id, "did") then Ok(p.(roots := p.roots + [r.data]))
    else Ok(p)
  }

  function ApplyRecords(env: Env, did: string, p: Progress, records: seq<TxtRecord>): Result<Progress, DhtError>
    decreases records
  {
    if records == [] then Ok(p)
    else
      var p' :- ApplyRecord(env, did, p, records[0]);
      ApplyRecords(env, did, p', records[1..])
  }

  function Assemble(did: Did, p: Progress): Document {
    Document(did, p.aka, p.controller, p.methods, ApplyRoots(NO_RELATIONSHIPS, p.roots, p.ids), p.services, map[], [])
  }

  datatype Decoded = Decoded(document: Document, types: Option<seq<u64>>)

  /** Deserialising the assembled document checks the syntax of its identifiers. */
  function Finish(env: Env, did: Did, p: Progress): Result<Decoded, DhtError> {
    if Typed(env, Assemble(did, p)) then Ok(Decoded(Assemble(did, p), p.types)) else Err(InvalidDocument)
  }

  function DecodeAnswers(env: Env, did: Did, answers: seq<Answer>): Result<Decoded, DhtError> {
    if did.name != "dht" then Err(MethodNotSupported(did.name))
    else
      var records :- TxtRecords(answers);
      var p :- ApplyRecords(env, did.ToString(), START, records);
      Finish(env, did, p)
  }

  /** Go on with more records unless reading has already failed. */
  function Continue(env: Env, did: string, r: Result<Progress, DhtError>,
                    records: seq<TxtRecord>): Result<Progress, DhtError> {
    if r.Err? then r else ApplyRecords(env, did, r.value, records)
  }

  lemma ApplyRecordsCons(env: Env, did: string, p: Progress, r: TxtRecord, rest: seq<TxtRecord>)
    ensures ApplyRecords(env, did, p, [r] + rest) == Continue(env, did, ApplyRecord(env, did, p, r), rest)
  {
  }

  lemma {:induction false} ApplyRecordsAppend(env: Env, did: string, p: Progress, a: seq<TxtRecord>, b: seq<TxtRecord>)
    ensures ApplyRecords(env, did, p, a + b)
            == Continue(env, did, ApplyRecords(env, did, p, a), b)
    decreases a
  {
    if a == [] {
      assert a + b == b;
    } else {
      assert (a + b)[0] == a[0] && (a + b)[1..] == a[1..] + b;
      match ApplyRecord(env, did, p, a[0])
      case Err(_) =>
      case Ok(q) => ApplyRecordsAppend(env, did, q, a[1..], b);
    }
  }
}

/** Publishing a document through a relay and resolving it again, over an abstract transport. */
module DhtGateway {
  import opened Wrappers
  import opened Bytes
  import opened Text
  import opened DidDocument
  import opened DhtRecords
  import opened DhtEncode
  import opened DhtDecode
  import opened DhtNormal
  import opened DhtTheorems
  import opened DhtDocuments
  import opened Bep44

  /** The libraries behind the codec: DNS packet serialisation, Ed25519 verification and URLs. */
  datatype World = World(
    env: Env,
    build: seq<Answer> -> Option<bytes>,
    parse: bytes -> Option<seq<Answer>>,
    verify: (bytes, bytes, Signature) -> bool,
    identityUrl: (GatewayUri, bytes) -> Option<string>)

  datatype GatewayUri = GatewayUri(url: string, host: Gateway)

  /** A packet that was built parses into answers with the same TXT records. */
  predicate PacketKept(w: World, answers: seq<Answer>) {
    w.build(answers).Some? ==>
      var parsed := w.parse(w.build(answers).value);
      parsed.Some? && TxtRecords(parsed.value) == TxtRecords(answers)
  }

  ghost predicate SoundPackets(w: World) {
    forall answers: seq<Answer> :: PacketKept(w, answers)
  }

  function EncodeBytes(w: World, doc: Document, types: seq<u64>, gateways: seq<Gateway>): Result<bytes, DhtError> {
    var answers :- EncodeAnswers(w.env, doc, types, gateways);
    match w.build(answers)
    case None => Err(InvalidDocument)
    case Some(packet) => Ok(packet)
  }

  function DecodeBytes(w: World, did: Did, packet: bytes): Result<Decoded, DhtError> {
    if did.name != "dht" then Err(MethodNotSupported(did.name))
    else
      match w.parse(packet)
      case None => Err(InvalidDocument)
      case Some(answers) => DecodeAnswers(w.env, did, answers)
  }

  // ------------------------------------------------------------------ publishing

  function VerifyMessage(w: World, key: bytes, m: Message): bool {
    w.verify(key, SigningPayload(m.sequence, m.value), m.signature)
  }

  /** Encode, check the size, sign, and verify the signature before anything is sent. */
  function SignPublish(w: World, doc: Document, types: seq<u64>, gateways: seq<Gateway>, sequence: u64,
                       signer: bytes -> Option<bytes>): (r: Result<Message, DhtError>)
    ensures r.Ok? ==> |r.value.value| <= MAX_VALUE_LEN && r.value.sequence == sequence
  {
    var value :- EncodeBytes(w, doc, types, gateways);
    if |value| > MAX_VALUE_LEN then Err(ValueTooLarge(|value|))
    else
      match DecodeIdentityKey(w.env, doc.id)
      case Err(e) => Err(e)
      case Ok(key) =>
        match signer(SigningPayload(sequence, value))
        case None => Err(SignerFailed)
        case Some(signature) =>
          if |signature| != SIGNATURE_LEN then Err(InvalidSignature)
          else if !VerifyMessage(w, key, Message(signature, sequence, value)) then Err(InvalidSignature)
          else Ok(Message(signature, sequence, value))
  }

  datatype RelayRequest = Get(url: string) | Put(url: string, body: bytes)

  datatype RelayResponse = RelayResponse(status: nat, body: bytes)

  type Transport = RelayRequest -> Result<RelayResponse, DhtError>

  function GatewayIdentityUri(w: World, gateway: GatewayUri, did: Did): Result<string, DhtError> {
    var key :- DecodeIdentityKey(w.env, did);
    match w.identityUrl(gateway, key)
    case None => Err(InvalidGatewayUri)
    case Some(url) => Ok(url)
  }

  /** The request that publishing sends, or the error that keeps it from sending anything. */
  function PublishRequest(w: World, gateway: GatewayUri, doc: Document, types: seq<u64>, sequence: u64,
                          signer: bytes -> Option<bytes>): Result<RelayRequest, DhtError>
  {
    var signed :- SignPublish(w, doc, types, [gateway.host], sequence, signer);
    var url :- GatewayIdentityUri(w, gateway, doc.id);
    Ok(Put(url, RelayBody(signed)))
  }

  predicate Success(status: nat) {
    200 <= status < 300
  }

  function Publish(w: World, gateway: GatewayUri, doc: Document, types: seq<u64>, sequence: u64,
                   signer: bytes -> Option<bytes>, transport: Transport): Result<u64, DhtError>
  {
    var request :- PublishRequest(w, gateway, doc, types, sequence, signer);
    var response :- transport(request);
    if Success(response.status) then Ok(sequence) else Err(GatewayRejected(response.status, sequence))
  }

  // ------------------------------------------------------------------ resolving

  datatype Resolved = Resolved(document: Document, sequence: u64, types: Option<seq<u64>>)

  function Resolve(w: World, gateway: GatewayUri, did: Did, transport: Transport): Result<Resolved, DhtError> {
    if did.name != "dht" then Err(MethodNotSupported(did.name))
    else
      var url :- GatewayIdentityUri(w, gateway, did);
      var response :- transport(Get(url));
      if !Success(response.status) then Err(NotFound)
      else
        match DecodeIdentityKey(w.env, did)
        case Err(e) => Err(e)
        case Ok(key) =>
          var message :- ParseRelayPayload(response.body);
          if !VerifyMessage(w, key, message) then Err(InvalidSignature)
          else
            var decoded :- DecodeBytes(w, did, message.value);
            Ok(Resolved(decoded.document, message.sequence, decoded.types))
  }

  // ------------------------------------------------------------------ end to end

  /** What a resolver returns for a document whose normal form is known. */
  function ResolvedAs(r: Result<Document, DhtError>, sequence: u64, types: seq<u64>): Result<Resolved, DhtError> {
    if r.Err? then Err(r.error) else Ok(Resolved(r.value, sequence, TypesRead(types)))
  }

  lemma DecodeDependsOnRecords(env: Env, did: Did, a: seq<Answer>, b: seq<Answer>)
    requires TxtRecords(a) == TxtRecords(b)
    ensures DecodeAnswers(env, did, a) == DecodeAnswers(env, did, b)
  {
  }

  lemma DecodeOfEncoded(w: World, doc: Document, types: seq<u64>, gateways: seq<Gateway>)
    requires SoundPackets(w) && EncodeBytes(w, doc, types, gateways).Ok?
    ensures AcceptedMethods(w.env, doc)
    ensures DecodeBytes(w, doc.id, EncodeBytes(w, doc, types, gateways).value) == WithTypes(Normal(w.env, doc), types)
  {
    hide EncodeAnswers, DecodeAnswers, Normal, TypesRead, TxtRecords, AcceptedMethods;
    var answers := EncodeAnswers(w.env, doc, types, gateways).value;
    EncodeThenDecode(w.env, doc, types, gateways);
    EncodedPlan(w.env, doc, types, gateways);
    AcceptedName(w.env, doc);
    assert PacketKept(w, answers);
    DecodeDependsOnRecords(w.env, doc.id, answers, w.parse(w.build(answers).value).value);
  }

  lemma AcceptedName(env: Env, doc: Document)
    requires MakePlan(env, doc).Ok?
    ensures doc.id.name == "dht"
  {
    hide PlanVms;
    PlanFacts(env, doc);
    DhtMethod(env, doc);
  }

  /** Whatever publishing sends, a resolver that gets it back accepts it: it yields the published
      sequence and types and the normal form of the document, or the error of an unreadable document.
      No body is longer than 1072 bytes. */
  lemma PublishThenResolve(w: World, gateway: GatewayUri, doc: Document, types: seq<u64>, sequence: u64,
                           signer: bytes -> Option<bytes>, transport: Transport, status: nat)
    requires SoundPackets(w) && Success(status)
    requires PublishRequest(w, gateway, doc, types, sequence, signer).Ok?
    requires var request := PublishRequest(w, gateway, doc, types, sequence, signer).value;
             transport(Get(request.url)) == Ok(RelayResponse(status, request.body))
    ensures |PublishRequest(w, gateway, doc, types, sequence, signer).value.body| <= 1072
    ensures AcceptedMethods(w.env, doc)
    ensures Resolve(w, gateway, doc.id, transport) == ResolvedAs(Normal(w.env, doc), sequence, types)
  {
    hide EncodeBytes, DecodeBytes, Normal, TypesRead, ParseRelayPayload, RelayBody, SigningPayload, AcceptedMethods,
      SoundPackets;
    var signed := SignPublish(w, doc, types, [gateway.host], sequence, signer).value;
    ParseRelayBody(signed);
    DecodeOfEncoded(w, doc, types, [gateway.host]);
  }

  /** A value is signed for sending exactly when it has at most 1000 bytes, the signer answers with 64 bytes, and
      the DID's own key verifies them over the preimage of the sequence number and the value. */
  lemma SignedIff(w: World, doc: Document, types: seq<u64>, gateways: seq<Gateway>, sequence: u64,
                  signer: bytes -> Option<bytes>)
    requires EncodeBytes(w, doc, types, gateways).Ok? && DecodeIdentityKey(w.env, doc.id).Ok?
    ensures var value := EncodeBytes(w, doc, types, gateways).value;
            var key, signature := DecodeIdentityKey(w.env, doc.id).value, signer(SigningPayload(sequence, value));
            var r := SignPublish(w, doc, types, gateways, sequence, signer);
            if |value| > 1000 then r == Err(ValueTooLarge(|value|))
            else if signature.None? then r == Err(SignerFailed)
            else if |signature.value| != 64 then r == Err(InvalidSignature)
            else if !w.verify(key, SigningPayload(sequence, value), signature.value) then r == Err(InvalidSignature)
            else r == Ok(Message(signature.value, sequence, value))
  {
    hide EncodeBytes, SigningPayload, DecodeIdentityKey;
  }

  /** A signature that does not verify is never sent: whatever the relay would answer, publishing fails. */
  lemma UnverifiedNotSent(w: World, gateway: GatewayUri, doc: Document, types: seq<u64>, sequence: u64,
                          signer: bytes -> Option<bytes>, transport: Transport)
    requires EncodeBytes(w, doc, types, [gateway.host]).Ok? && DecodeIdentityKey(w.env, doc.id).Ok?
    requires var value := EncodeBytes(w, doc, types, [gateway.host]).value;
             var signature := signer(SigningPayload(sequence, value));
             && |value| <= 1000 && signature.Some? && |signature.value| == 64
             && !w.verify(DecodeIdentityKey(w.env, doc.id).value, SigningPayload(sequence, value), signature.value)
    ensures PublishRequest(w, gateway, doc, types, sequence, signer) == Err(InvalidSignature)
    ensures Publish(w, gateway, doc, types, sequence, signer, transport) == Err(InvalidSignature)
  {
    hide EncodeBytes, SigningPayload, DecodeIdentityKey, SignPublish;
    SignedIff(w, doc, types, [gateway.host], sequence, signer);
  }

  /** Publishing succeeds only with a 2xx answer to a request whose signature the DID's own key verifies; any other
      answer is a rejection that carries its status and the sequence number. */
  lemma PublishOnlyVerified(w: World, gateway: GatewayUri, doc: Document, types: seq<u64>, sequence: u64,
                            signer: bytes -> Option<bytes>, transport: Transport)
    ensures PublishRequest(w, gateway, doc, types, sequence, signer).Err? ==>
              Publish(w, gateway, doc, types, sequence, signer, transport)
              == Err(PublishRequest(w, gateway, doc, types, sequence, signer).error)
    ensures PublishRequest(w, gateway, doc, types, sequence, signer).Ok? ==>
              var request := PublishRequest(w, gateway, doc, types, sequence, signer).value;
              && request.Put?
              && DecodeIdentityKey(w.env, doc.id).Ok?
              && w.identityUrl(gateway, DecodeIdentityKey(w.env, doc.id).value) == Some(request.url)
              && ParseRelayPayload(request.body).Ok?
              && var m := ParseRelayPayload(request.body).value;
              && m.sequence == sequence
              && Ok(m.value) == EncodeBytes(w, doc, types, [gateway.host])
              && w.verify(DecodeIdentityKey(w.env, doc.id).value, SigningPayload(sequence, m.value), m.signature)
              && Publish(w, gateway, doc, types, sequence, signer, transport)
                 == match transport(request) {
                      case Err(e) => Err(e)
                      case Ok(response) =>
                        if 200 <= response.status < 300 then Ok(sequence)
                        else Err(GatewayRejected(response.status, sequence))
                    }
  {
    hide EncodeBytes, ParseRelayPayload, RelayBody, SigningPayload, DecodeIdentityKey;
    if PublishRequest(w, gateway, doc, types, sequence, signer).Ok? {
      ParseRelayBody(SignPublish(w, doc, types, [gateway.host], sequence, signer).value);
    }
  }

  /** A resolved document is the decoding of bytes that the DID's identity key signed together with the
      sequence number, and those bytes are the only ones with that preimage. */
  lemma ResolveOnlySigned(w: World, gateway: GatewayUri, did: Did, transport: Transport, s: u64, v: bytes)
    requires Resolve(w, gateway, did, transport).Ok?
    ensures var r := Resolve(w, gateway, did, transport).value;
            && DecodeIdentityKey(w.env, did).Ok?
            && var url := GatewayIdentityUri(w, gateway, did).value;
            && transport(Get(url)).Ok? && 200 <= transport(Get(url)).value.status < 300
            && ParseRelayPayload(transport(Get(url)).value.body).Ok?
            && var m := ParseRelayPayload(transport(Get(url)).value.body).value;
            && transport(Get(url)).value.body == RelayBody(m)
            && w.verify(DecodeIdentityKey(w.env, did).value, SigningPayload(m.sequence, m.value), m.signature)
            && r.sequence == m.sequence
            && DecodeBytes(w, did, m.value) == Ok(Decoded(r.document, r.types))
            && (SigningPayload(s, v) == SigningPayload(m.sequence, m.value) ==> s == m.sequence && v == m.value)
  {
    hide DecodeBytes, ParseRelayPayload, RelayBody, SigningPayload, DecodeIdentityKey;
    var url := GatewayIdentityUri(w, gateway, did).value;
    var body := transport(Get(url)).value.body;
    RelayBodyOfParsed(body);
    var m := ParseRelayPayload(body).value;
    if SigningPayload(s, v) == SigningPayload(m.sequence, m.value) {
      SigningPayloadInjective(s, v, m.sequence, m.value);
    }
  }

  /** What a relay's answer resolves to: nothing but a 2xx status is read, the body has 72 to 1072 bytes, a
      signature that does not verify is refused whatever it signs, and one that does leads to the decoder. */
  lemma ResolveCases(w: World, gateway: GatewayUri, did: Did, transport: Transport, url: string, status: nat,
                     body: bytes)
    requires GatewayIdentityUri(w, gateway, did) == Ok(url) && DecodeIdentityKey(w.env, did).Ok?
    requires transport(Get(url)) == Ok(RelayResponse(status, body))
    ensures var r := Resolve(w, gateway, did, transport);
            if !(200 <= status < 300) then r == Err(NotFound)
            else if !(72 <= |body| <= 1072) then r == Err(InvalidDocumentLength(72, 1072, |body|))
            else
              var m := Message(body[..64], ParseRelayPayload(body).value.sequence, body[72..]);
              && m.sequence == FromBigEndian(body[64..72])
              && (if !w.verify(DecodeIdentityKey(w.env, did).value, SigningPayload(m.sequence, m.value), m.signature)
                  then r == Err(InvalidSignature)
                  else
                    match DecodeBytes(w, did, m.value) {
                      case Err(e) => r == Err(e)
                      case Ok(d) => r == Ok(Resolved(d.document, m.sequence, d.types))
                    })
  {
    hide DecodeBytes, ParseRelayPayload, RelayBody, SigningPayload;
    RelayBodyOfParsed(body);
  }
}

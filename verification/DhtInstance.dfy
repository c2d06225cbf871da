/** The hypotheses about packets hold together: over a toy packet format that can write every list of answers,
    a document is published and resolved. */
module DhtInstance {
  import opened Wrappers
  import opened Bytes
  import opened Text
  import opened DidDocument
  import opened DhtRecords
  import opened DhtEncode
  import opened DhtDecode
  import opened DhtNormal
  import opened DhtTheorems
  import opened DhtIdentity
  import opened DhtExamples
  import opened DhtGateway
  import opened Bep44
  import opened JsonCode

  // ------------------------------------------------------------------ answers as JSON values

  function BytesJson(b: bytes): Json {
    JArray(seq(|b|, i requires 0 <= i < |b| => JNumber(b[i] as int)))
  }

  function StringsJson(strings: seq<bytes>): Json {
    JArray(seq(|strings|, i requires 0 <= i < |strings| => BytesJson(strings[i])))
  }

  function AnswerJson(a: Answer): Json {
    match a
    case Txt(name, strings) => JArray([JString(name), StringsJson(strings)])
    case Ns(name, target) => JArray([JString(name), JString(target)])
  }

  function AnswersJson(answers: seq<Answer>): Json {
    JArray(seq(|answers|, i requires 0 <= i < |answers| => AnswerJson(answers[i])))
  }

  lemma BytesInjective(b: bytes, c: bytes)
    requires BytesJson(b) == BytesJson(c)
    ensures b == c
  {
    forall i | 0 <= i < |b|
      ensures b[i] == c[i]
    {
      assert BytesJson(b).items[i] == BytesJson(c).items[i];
    }
  }

  lemma StringsInjective(s: seq<bytes>, t: seq<bytes>)
    requires StringsJson(s) == StringsJson(t)
    ensures s == t
  {
    forall i | 0 <= i < |s|
      ensures s[i] == t[i]
    {
      assert StringsJson(s).items[i] == StringsJson(t).items[i];
      BytesInjective(s[i], t[i]);
    }
  }

  lemma AnswerInjective(a: Answer, b: Answer)
    requires AnswerJson(a) == AnswerJson(b)
    ensures a == b
  {
    assert AnswerJson(a).items[0] == AnswerJson(b).items[0] && AnswerJson(a).items[1] == AnswerJson(b).items[1];
    if a.Txt? && b.Txt? {
      StringsInjective(a.strings, b.strings);
    }
  }

  lemma AnswersInjective(a: seq<Answer>, b: seq<Answer>)
    requires AnswersJson(a) == AnswersJson(b)
    ensures a == b
  {
    forall i | 0 <= i < |a|
      ensures a[i] == b[i]
    {
      assert AnswersJson(a).items[i] == AnswersJson(b).items[i];
      AnswerInjective(a[i], b[i]);
    }
  }

  // ------------------------------------------------------------------ a toy packet format

  /** Every list of answers has a packet; one of them, `short`, has the empty packet. */
  function Build(short: seq<Answer>, answers: seq<Answer>): bytes {
    if answers == short then [] else Code(AnswersJson(answers))
  }

  ghost function Parse(short: seq<Answer>, packet: bytes): Option<seq<Answer>> {
    if exists answers :: Build(short, answers) == packet then Some(var a :| Build(short, a) == packet; a) else None
  }

  lemma ParseBuild(short: seq<Answer>, answers: seq<Answer>)
    ensures Parse(short, Build(short, answers)) == Some(answers)
  {
    hide Code, AnswersJson;
    var a := Parse(short, Build(short, answers)).value;
    assert Build(short, a) == Build(short, answers);
    if answers != short {
      CodeInjective(AnswersJson(a), AnswersJson(answers));
      AnswersInjective(a, answers);
    }
  }

  ghost function ToyWorld(short: seq<Answer>): World {
    World(TOY, answers => Some(Build(short, answers)), packet => Parse(short, packet),
          (key, preimage, signature) => true, (gateway: GatewayUri, key) => Some(gateway.url))
  }

  lemma ToyPackets(short: seq<Answer>)
    ensures SoundPackets(ToyWorld(short)) && forall answers :: ToyWorld(short).build(answers).Some?
  {
    forall answers: seq<Answer>
      ensures PacketKept(ToyWorld(short), answers)
    {
      hide Build, Parse, TxtRecords;
      ParseBuild(short, answers);
    }
  }

  // ------------------------------------------------------------------ published and resolved

  const TOY_GATEWAY: GatewayUri := GatewayUri("u", IpHost)

  const NO_SIGNATURE: bytes := seq(64, _ => 0)

  function Relay(body: bytes): Transport {
    request => Ok(RelayResponse(200, body))
  }

  lemma SmallestReads(types: seq<u64>)
    ensures var doc := SmallestDocument(TOY_DID, ZEROS);
            && EncodeAnswers(TOY, doc, types, [IpHost]).Ok?
            && AcceptedMethods(TOY, doc) && Normal(TOY, doc).Ok?
  {
    hide EncodeAnswers, DecodeAnswers, Normal, AcceptedMethods, UsualNames, Identity, Did.ToString, TypesRead;
    var doc := SmallestDocument(TOY_DID, ZEROS);
    ToyPublishes();
    assert NsTargets([IpHost]) == NsTargets([]) == Ok([]);
    EveryIdentityPublishes(TOY, TOY_DID, ZEROS, types, [IpHost]);
    EncodeThenDecode(TOY, doc, types, [IpHost]);
  }

  /** Whatever the types and the sequence number, the smallest document of the toy identity is published, and a
      relay that returns what it was sent resolves to it. */
  lemma HypothesesHold(types: seq<u64>, sequence: u64)
    ensures EncodeAnswers(TOY, SmallestDocument(TOY_DID, ZEROS), types, [IpHost]).Ok?
    ensures var doc := SmallestDocument(TOY_DID, ZEROS);
            var w := ToyWorld(EncodeAnswers(TOY, doc, types, [IpHost]).value);
            var signer := payload => Some(NO_SIGNATURE);
            var request := PublishRequest(w, TOY_GATEWAY, doc, types, sequence, signer);
            && SoundPackets(w) && (forall answers :: w.build(answers).Some?) && request.Ok?
            && AcceptedMethods(TOY, doc) && Normal(TOY, doc).Ok?
            && Resolve(w, TOY_GATEWAY, TOY_DID, Relay(request.value.body))
               == Ok(Resolved(Normal(TOY, doc).value, sequence, TypesRead(types)))
  {
    hide EncodeAnswers, Parse, Normal, AcceptedMethods, SoundPackets, TypesRead, RelayBody, SigningPayload, Resolve,
      Code, AnswersJson;
    var doc := SmallestDocument(TOY_DID, ZEROS);
    SmallestReads(types);
    var short := EncodeAnswers(TOY, doc, types, [IpHost]).value;
    ToyPackets(short);
    var w, signer := ToyWorld(short), payload => Some(NO_SIGNATURE);
    assert EncodeBytes(w, doc, types, [IpHost]) == Ok([]);
    var request := PublishRequest(w, TOY_GATEWAY, doc, types, sequence, signer).value;
    PublishThenResolve(w, TOY_GATEWAY, doc, types, sequence, signer, Relay(request.body), 200);
  }
}

/** What any packet decodes to, kind by kind: which records matter, what each says, and exactly when reading
    succeeds. Nothing here supposes that the packet was written by the encoder. */
module DhtRead {
  import opened Wrappers
  import opened Text
  import opened Bytes
  import opened Utf8
  import opened DidDocument
  import opened DhtRecords
  import opened DhtDecode
  import opened DhtWire
  import Base64Url

  // ------------------------------------------------------------------ properties

  function BeforeEquals(text: string): string {
    Split(text, '=')[0]
  }

  /** What stands between the first and the second equals sign. */
  function AfterEquals(text: string): string {
    var parts := Split(text, '=');
    if |parts| == 1 then "" else parts[1]
  }

  /** The pair at `i` is under `key`, and no later one is. */
  predicate LastPair(pairs: seq<Pair>, key: string, i: int) {
    0 <= i < |pairs| && pairs[i].key == key && forall j :: i < j < |pairs| ==> pairs[j].key != key
  }

  /** The same for the texts of pairs. */
  predicate LastUnder(texts: seq<string>, key: string, i: int) {
    0 <= i < |texts| && BeforeEquals(texts[i]) == key && forall j :: i < j < |texts| ==> BeforeEquals(texts[j]) != key
  }

  lemma {:induction false} PairsMapIff(pairs: seq<Pair>, key: string)
    ensures key in PairsMap(pairs) <==> exists i :: LastPair(pairs, key, i)
    ensures forall i :: LastPair(pairs, key, i) ==> key in PairsMap(pairs) && PairsMap(pairs)[key] == pairs[i].value
  {
    if pairs != [] {
      var front, last := pairs[..|pairs| - 1], pairs[|pairs| - 1];
      PairsMapIff(front, key);
      if last.key == key {
        assert LastPair(pairs, key, |pairs| - 1);
      } else {
        forall i
          ensures LastPair(pairs, key, i) <==> LastPair(front, key, i)
        {
          assert forall j :: 0 <= j < |front| ==> front[j] == pairs[j];
        }
      }
    }
  }

  lemma LastSame(texts: seq<string>, key: string, i: int)
    ensures LastPair(ParsePairs(texts), key, i) <==> LastUnder(texts, key, i)
    ensures 0 <= i < |texts| ==> ParsePairs(texts)[i].value == AfterEquals(texts[i])
  {
    hide Split;
    assert forall j :: 0 <= j < |texts| ==> ParsePairs(texts)[j].key == BeforeEquals(texts[j]);
  }

  lemma TextsMapIff(texts: seq<string>, key: string)
    ensures key in PairsMap(ParsePairs(texts)) <==> exists i :: LastUnder(texts, key, i)
    ensures forall i :: LastUnder(texts, key, i) ==>
              key in PairsMap(ParsePairs(texts)) && PairsMap(ParsePairs(texts))[key] == AfterEquals(texts[i])
  {
    hide PairsMap, ParsePairs, LastUnder, LastPair, AfterEquals;
    PairsMapIff(ParsePairs(texts), key);
    forall i
      ensures LastPair(ParsePairs(texts), key, i) <==> LastUnder(texts, key, i)
      ensures 0 <= i < |texts| ==> i < |ParsePairs(texts)| && ParsePairs(texts)[i].value == AfterEquals(texts[i])
      ensures LastUnder(texts, key, i) ==> 0 <= i < |texts|
    {
      LastSame(texts, key, i);
      LastInRange(texts, key, i);
    }
    if key in PairsMap(ParsePairs(texts)) {
      var i :| LastPair(ParsePairs(texts), key, i);
      assert LastUnder(texts, key, i);
    }
  }

  /** A record's text cut at its semicolons. */
  function Pieces(data: string): seq<string> {
    Split(data, ';')
  }

  lemma PropertiesOfPieces(data: string)
    ensures Properties(data) == PairsMap(ParsePairs(Pieces(data)))
  {
  }

  /** A record's properties: its text is cut at semicolons, each piece at its equals signs; the last piece under a
      name counts. */
  lemma PropertiesIff(data: string, key: string)
    ensures key in Properties(data) <==> exists i :: LastUnder(Pieces(data), key, i)
    ensures forall i :: LastUnder(Pieces(data), key, i) ==>
              key in Properties(data) && Properties(data)[key] == AfterEquals(Pieces(data)[i])
  {
    hide Pieces, ParsePairs, AfterEquals, Properties, PairsMap;
    PropertiesOfPieces(data);
    TextsMapIff(Pieces(data), key);
  }

  lemma LastInRange(texts: seq<string>, key: string, i: int)
    ensures |ParsePairs(texts)| == |texts|
    ensures LastUnder(texts, key, i) ==> 0 <= i < |texts|
  {
  }

  // ------------------------------------------------------------------ one method record

  /** The key of a registered type that some bytes spell. */
  predicate KeyRead(env: Env, t: string, raw: bytes, m: KeyMaterial) {
    || (t == "0" && |raw| == 32 && env.isEd25519Point(raw)
        && m == KeyMaterial(Some("OKP"), Some("Ed25519"), Some(raw), None))
    || (t == "1" && |raw| == 33 && PointRead(env.decompress(Secp256k1, raw), "secp256k1", m))
    || (t == "2" && |raw| == 33 && PointRead(env.decompress(P256, raw), "P-256", m))
    || (t == "3" && |raw| == 32 && m == KeyMaterial(Some("OKP"), Some("X25519"), Some(raw), None))
  }

  predicate PointRead(point: Option<(bytes, bytes)>, curve: string, m: KeyMaterial) {
    point.Some? && m == KeyMaterial(Some("EC"), Some(curve), Some(point.value.0), Some(point.value.1))
  }

  function Or(values: map<string, string>, name: string, default: string): string {
    if name in values then values[name] else default
  }

  /** The method that a record spells: record `k0` is `#0`, any other has its `id` or its thumbprint as a name. */
  predicate MethodRead(env: Env, did: string, recordId: string, values: map<string, string>, m: VerificationMethod) {
    && "k" in values && "t" in values && Base64Url.Decode(values["k"]).Some?
    && "publicKeyJwk" in m.properties && m.properties["publicKeyJwk"].KeyProperty?
    && var material := m.properties["publicKeyJwk"].jwk.material;
    && KeyRead(env, values["t"], Base64Url.Decode(values["k"]).value, material)
    && env.thumbprint(material, map[]).Some?
    && var kid := env.thumbprint(material, map[]).value;
    var jwk := Jwk(material, Some(Or(values, "a", UsualAlgorithm(values["t"]))), Some(kid), map[]);
    m == VerificationMethod(did + "#" + (if recordId == "k0" then "0" else Or(values, "id", kid)), "JsonWebKey",
                            Or(values, "c", did), map["publicKeyJwk" := KeyProperty(jwk)])
  }

  lemma KeyReadIff(env: Env, t: string, raw: bytes, parsed: ParsedKey)
    ensures ParseKey(env, t, raw) == Ok(parsed)
            <==> KeyRead(env, t, raw, parsed.material) && parsed.defaultAlgorithm == UsualAlgorithm(t)
  {
  }

  lemma MethodReadIff(env: Env, did: string, recordId: string, data: string, m: VerificationMethod)
    ensures DecodeMethod(env, did, recordId, data) == Ok(m)
            <==> MethodRead(env, did, recordId, Properties(data), m)
  {
    hide Properties, Base64Url.Decode, ParseKey, KeyRead, UsualAlgorithm;
    var values := Properties(data);
    if "k" in values && Base64Url.Decode(values["k"]).Some? {
      var raw, t := Base64Url.Decode(values["k"]).value, Get(values, "t").GetOr("");
      var parsed := ParseKey(env, t, raw);
      if parsed.Ok? {
        KeyReadIff(env, t, raw, parsed.value);
        NoEmptyType(env, raw, parsed.value.material);
      }
      if MethodRead(env, did, recordId, values, m) {
        var material := m.properties["publicKeyJwk"].jwk.material;
        KeyReadIff(env, t, raw, ParsedKey(material, UsualAlgorithm(t)));
      }
    }
  }

  lemma NoEmptyType(env: Env, raw: bytes, m: KeyMaterial)
    ensures !KeyRead(env, "", raw, m)
  {
  }

  // ------------------------------------------------------------------ one service record

  /** A text with a comma is a list. */
  function ListOrText(text: string): Json {
    var parts := Split(text, ',');
    if |parts| == 1 then JString(text) else JArray(seq(|parts|, i requires 0 <= i < |parts| => JString(parts[i])))
  }

  predicate Filled(values: map<string, string>, name: string) {
    name in values && values[name] != ""
  }

  /** The service that a record spells. What stands under `type` or `serviceEndpoint` takes that place. */
  predicate ServiceRead(did: string, values: map<string, string>, s: Service) {
    && Filled(values, "id") && Filled(values, "t") && Filled(values, "se")
    && s.id == did + "#" + values["id"]
    && s.kind == (if "type" !in values then One(values["t"])
                  else if |Split(values["type"], ',')| == 1 then One(values["type"])
                  else Many(Split(values["type"], ',')))
    && s.endpoint.Some?
    && (if "serviceEndpoint" in values then s.endpoint.value == ListOrText(values["serviceEndpoint"])
        else StringsAre(s.endpoint.value, Split(values["se"], ',')))
    && s.properties.Keys == values.Keys - {"id", "t", "se", "type", "serviceEndpoint"}
    && forall k :: k in s.properties ==> s.properties[k] == ListOrText(values[k])
  }

  lemma {:induction false} OnePiece(s: string, c: char)
    ensures |Split(s, c)| == 1 <==> c !in s
  {
    if s != "" {
      OnePiece(s[1..], c);
    }
  }

  lemma ExtraIs(text: string)
    ensures ExtraValue(text) == ListOrText(text)
    ensures KindOf(text) == (if |Split(text, ',')| == 1 then One(text) else Many(Split(text, ',')))
  {
    hide Split;
    OnePiece(text, ',');
  }

  lemma ServiceReadIff(did: string, data: string, s: Service)
    ensures DecodeService(did, data) == Ok(s) <==> ServiceRead(did, Properties(data), s)
  {
    hide Properties, Split, ExtraValue, KindOf, ListOrText;
    var values := Properties(data);
    forall text: string
      ensures ExtraValue(text) == ListOrText(text)
      ensures KindOf(text) == (if |Split(text, ',')| == 1 then One(text) else Many(Split(text, ',')))
    {
      ExtraIs(text);
    }
    if DecodeService(did, data).Ok? {
      var r := DecodeService(did, data).value;
      assert ServiceRead(did, values, r);
      if ServiceRead(did, values, s) {
        assert s.properties == r.properties;
        assert s.endpoint == r.endpoint by {
          if "serviceEndpoint" !in values {
            assert s.endpoint.value.items == r.endpoint.value.items;
          }
        }
      }
    }
  }

  // ------------------------------------------------------------------ the type record

  /** The types that a record spells. */
  predicate NumbersRead(values: map<string, string>, types: seq<u64>) {
    && "id" in values && |Split(values["id"], ',')| == |types|
    && forall i :: 0 <= i < |types| ==> ParseU64(Split(values["id"], ',')[i]) == Some(types[i])
  }

  lemma {:induction false} ParseTypesIff(texts: seq<string>, types: seq<u64>)
    ensures ParseTypes(texts) == Ok(types)
            <==> |texts| == |types| && forall i :: 0 <= i < |types| ==> ParseU64(texts[i]) == Some(types[i])
    decreases texts
  {
    hide ParseU64;
    if texts != [] && types != [] {
      ParseTypesIff(texts[1..], types[1..]);
      assert types == [types[0]] + types[1..] && texts == [texts[0]] + texts[1..];
    }
    if texts == [] && ParseTypes(texts) == Ok(types) {
      assert types == [];
    }
  }

  lemma NumbersReadIff(data: string, types: seq<u64>)
    ensures DecodeTypes(data) == Ok(types) <==> NumbersRead(Properties(data), types)
  {
    hide Properties, Split, ParseU64, ParseTypes;
    if "id" in Properties(data) {
      ParseTypesIff(Split(Properties(data)["id"], ','), types);
    }
  }

  // ------------------------------------------------------------------ all records of a kind

  /** The records whose id starts with a prefix. */
  function Of(records: seq<TxtRecord>, prefix: string): seq<TxtRecord> {
    if records == [] then []
    else
      var last := records[|records| - 1];
      Of(records[..|records| - 1], prefix) + (if prefix <= last.id then [last] else [])
  }

  /** The records of a packet, kind by kind. */
  datatype Kinds = Kinds(aka: seq<TxtRecord>, cnt: seq<TxtRecord>, ks: seq<TxtRecord>, ss: seq<TxtRecord>,
                         typ: seq<TxtRecord>, roots: seq<TxtRecord>)

  function ByKind(records: seq<TxtRecord>): Kinds {
    Kinds(Of(records, "aka"), Of(records, "cnt"), Of(records, "k"), Of(records, "s"), Of(records, "typ"),
          Of(records, "did"))
  }

  function LastOf(records: seq<TxtRecord>): TxtRecord
    requires records != []
  {
    records[|records| - 1]
  }

  predicate AkaRead(records: seq<TxtRecord>, aka: seq<string>) {
    aka == if records == [] then [] else Split(LastOf(records).data, ',')
  }

  predicate ControllerRead(records: seq<TxtRecord>, c: Option<OneOrMany>) {
    if records == [] then c == None
    else
      var parts := Split(LastOf(records).data, ',');
      c == Some(if |parts| == 1 then One(parts[0]) else Many(parts))
  }

  predicate MethodsRead(env: Env, did: string, records: seq<TxtRecord>, methods: seq<VerificationMethod>) {
    && |records| == |methods|
    && forall i :: 0 <= i < |records| ==>
         MethodRead(env, did, records[i].id, Properties(records[i].data), methods[i])
  }

  predicate ServicesRead(did: string, records: seq<TxtRecord>, services: seq<Service>) {
    && |records| == |services|
    && forall i :: 0 <= i < |records| ==> ServiceRead(did, Properties(records[i].data), services[i])
  }

  ghost predicate SomeNumbers(r: TxtRecord) {
    exists ts: seq<u64> :: NumbersRead(Properties(r.data), ts)
  }

  /** Every type record spells some types; the last one's count. */
  ghost predicate TypesRead(records: seq<TxtRecord>, types: Option<seq<u64>>) {
    && (forall i :: 0 <= i < |records| ==> SomeNumbers(records[i]))
    && (if records == [] then types == None
        else types.Some? && NumbersRead(Properties(LastOf(records).data), types.value))
  }

  /** The id of the last method recorded under a label. */
  function IdUnder(records: seq<TxtRecord>, methods: seq<VerificationMethod>, label_: string): Option<string>
    requires |records| == |methods|
  {
    if records == [] then None
    else if LastOf(records).id == label_ then Some(methods[|records| - 1].id)
    else IdUnder(records[..|records| - 1], methods[..|records| - 1], label_)
  }

  /** References to the methods under the labels that are known. */
  function ListRead(labels: seq<string>, records: seq<TxtRecord>, methods: seq<VerificationMethod>): seq<Relationship>
    requires |records| == |methods|
  {
    if labels == [] then []
    else
      var rest := ListRead(labels[1..], records, methods);
      match IdUnder(records, methods, labels[0])
      case None => rest
      case Some(id) => [Referenced(Absolute(id))] + rest
  }

  /** The list under a code in the last root record that has one. */
  function LastList(roots: seq<TxtRecord>, code: string, records: seq<TxtRecord>,
                    methods: seq<VerificationMethod>): seq<Relationship>
    requires |records| == |methods|
    decreases |roots|
  {
    if roots == [] then []
    else
      var values := Properties(LastOf(roots).data);
      if code in values then ListRead(Split(values[code], ','), records, methods)
      else LastList(roots[..|roots| - 1], code, records, methods)
  }

  function AllLists(roots: seq<TxtRecord>, records: seq<TxtRecord>, methods: seq<VerificationMethod>): Relationships
    requires |records| == |methods|
  {
    Relationships(LastList(roots, "auth", records, methods), LastList(roots, "asm", records, methods),
                  LastList(roots, "inv", records, methods), LastList(roots, "del", records, methods),
                  LastList(roots, "agm", records, methods))
  }

  /** What the records of a packet say, whatever else is in it. */
  ghost predicate PacketRead(env: Env, did: Did, k: Kinds, d: Document, types: Option<seq<u64>>) {
    && d.id == did && d.propertySet == map[] && d.publicKey == []
    && AkaRead(k.aka, d.alsoKnownAs)
    && ControllerRead(k.cnt, d.controller)
    && MethodsRead(env, did.ToString(), k.ks, d.verificationMethod)
    && ServicesRead(did.ToString(), k.ss, d.service)
    && TypesRead(k.typ, types)
    && d.relationships == AllLists(k.roots, k.ks, d.verificationMethod)
  }

  // ------------------------------------------------------------------ reading record by record

  function Datas(records: seq<TxtRecord>): seq<string> {
    seq(|records|, i requires 0 <= i < |records| => records[i].data)
  }

  /** The reader's index holds the last id under each label. */
  ghost predicate IndexRead(ids: map<string, string>, records: seq<TxtRecord>, methods: seq<VerificationMethod>)
    requires |records| == |methods|
  {
    forall label_: string :: Get(ids, label_) == IdUnder(records, methods, label_)
  }

  /** What has been collected from the records so far. */
  ghost predicate Collects(env: Env, did: string, k: Kinds, p: Progress) {
    && AkaRead(k.aka, p.aka)
    && ControllerRead(k.cnt, p.controller)
    && MethodsRead(env, did, k.ks, p.methods)
    && ServicesRead(did, k.ss, p.services)
    && TypesRead(k.typ, p.types)
    && p.roots == Datas(k.roots)
    && IndexRead(p.ids, k.ks, p.methods)
  }

  /** A record that can be read: one of no known kind, or one that spells what its kind must. */
  ghost predicate RecordReadable(env: Env, did: string, r: TxtRecord) {
    && ("k" <= r.id ==> exists m: VerificationMethod :: MethodRead(env, did, r.id, Properties(r.data), m))
    && ("s" <= r.id ==> exists s: Service :: ServiceRead(did, Properties(r.data), s))
    && ("typ" <= r.id ==> SomeNumbers(r))
  }

  /** Only one prefix can fit. */
  lemma KindsDiffer(id: string)
    ensures id == "" ==> !("aka" <= id) && !("cnt" <= id) && !("k" <= id) && !("s" <= id) && !("typ" <= id)
                         && !("did" <= id)
    ensures "aka" <= id ==> id[0] == 'a'
    ensures "cnt" <= id ==> id[0] == 'c'
    ensures "k" <= id ==> id[0] == 'k'
    ensures "s" <= id ==> id[0] == 's'
    ensures "typ" <= id ==> id[0] == 't'
    ensures "did" <= id ==> id[0] == 'd'
  {
    assert "aka"[0] == 'a' && "cnt"[0] == 'c' && "k"[0] == 'k' && "s"[0] == 's' && "typ"[0] == 't' && "did"[0] == 'd';
  }

  /** The records of each kind after one more. */
  function More(k: Kinds, r: TxtRecord): Kinds {
    Kinds(if "aka" <= r.id then k.aka + [r] else k.aka, if "cnt" <= r.id then k.cnt + [r] else k.cnt,
          if "k" <= r.id then k.ks + [r] else k.ks, if "s" <= r.id then k.ss + [r] else k.ss,
          if "typ" <= r.id then k.typ + [r] else k.typ, if "did" <= r.id then k.roots + [r] else k.roots)
  }

  lemma ByKindSnoc(records: seq<TxtRecord>, r: TxtRecord)
    ensures ByKind(records + [r]) == More(ByKind(records), r)
  {
    assert (records + [r])[..|records|] == records;
  }

  lemma IndexSnoc(ids: map<string, string>, records: seq<TxtRecord>, methods: seq<VerificationMethod>, r: TxtRecord,
                  m: VerificationMethod)
    requires |records| == |methods| && IndexRead(ids, records, methods)
    ensures IndexRead(ids[r.id := m.id], records + [r], methods + [m])
  {
    forall label_: string
      ensures Get(ids[r.id := m.id], label_) == IdUnder(records + [r], methods + [m], label_)
    {
      assert (records + [r])[..|records|] == records && (methods + [m])[..|records|] == methods;
      assert Get(ids, label_) == IdUnder(records, methods, label_);
    }
  }

  /** Reading one more record keeps what has been collected, and works exactly when the record can be read. */
  lemma CollectsNext(env: Env, did: string, k: Kinds, p: Progress, r: TxtRecord)
    requires Collects(env, did, k, p)
    ensures ApplyRecord(env, did, p, r).Ok? <==> RecordReadable(env, did, r)
    ensures ApplyRecord(env, did, p, r).Ok? ==> Collects(env, did, More(k, r), ApplyRecord(env, did, p, r).value)
  {
    hide MethodRead, ServiceRead, NumbersRead, Properties, DecodeMethod, DecodeService, DecodeTypes, IndexRead;
    KindsDiffer(r.id);
    if "k" <= r.id {
      NextMethod(env, did, k, p, r);
    } else if "s" <= r.id {
      NextService(env, did, k, p, r);
    } else if "typ" <= r.id {
      NextTypes(env, did, k, p, r);
    } else if "did" <= r.id {
      assert Datas(k.roots + [r]) == Datas(k.roots) + [r.data];
    }
  }

  lemma NextMethod(env: Env, did: string, k: Kinds, p: Progress, r: TxtRecord)
    requires Collects(env, did, k, p) && "k" <= r.id
    ensures ApplyRecord(env, did, p, r).Ok? <==> RecordReadable(env, did, r)
    ensures ApplyRecord(env, did, p, r).Ok? ==> Collects(env, did, More(k, r), ApplyRecord(env, did, p, r).value)
  {
    hide MethodRead, ServiceRead, NumbersRead, Properties, DecodeMethod, IndexRead;
    KindsDiffer(r.id);
    var m := DecodeMethod(env, did, r.id, r.data);
    if m.Ok? {
      MethodReadIff(env, did, r.id, r.data, m.value);
      IndexSnoc(p.ids, k.ks, p.methods, r, m.value);
    }
    if other: VerificationMethod :| MethodRead(env, did, r.id, Properties(r.data), other) {
      MethodReadIff(env, did, r.id, r.data, other);
    }
  }

  lemma NextService(env: Env, did: string, k: Kinds, p: Progress, r: TxtRecord)
    requires Collects(env, did, k, p) && "s" <= r.id
    ensures ApplyRecord(env, did, p, r).Ok? <==> RecordReadable(env, did, r)
    ensures ApplyRecord(env, did, p, r).Ok? ==> Collects(env, did, More(k, r), ApplyRecord(env, did, p, r).value)
  {
    hide MethodRead, ServiceRead, NumbersRead, Properties, DecodeService, IndexRead;
    KindsDiffer(r.id);
    var s := DecodeService(did, r.data);
    if s.Ok? {
      ServiceReadIff(did, r.data, s.value);
    }
    if other: Service :| ServiceRead(did, Properties(r.data), other) {
      ServiceReadIff(did, r.data, other);
    }
  }

  lemma NextTypes(env: Env, did: string, k: Kinds, p: Progress, r: TxtRecord)
    requires Collects(env, did, k, p) && "typ" <= r.id
    ensures ApplyRecord(env, did, p, r).Ok? <==> RecordReadable(env, did, r)
    ensures ApplyRecord(env, did, p, r).Ok? ==> Collects(env, did, More(k, r), ApplyRecord(env, did, p, r).value)
  {
    hide MethodRead, ServiceRead, NumbersRead, Properties, DecodeTypes, IndexRead;
    KindsDiffer(r.id);
    var types := DecodeTypes(r.data);
    if types.Ok? {
      NumbersReadIff(r.data, types.value);
    }
    if other: seq<u64> :| NumbersRead(Properties(r.data), other) {
      NumbersReadIff(r.data, other);
    }
  }

  ghost predicate AllReadable(env: Env, did: string, records: seq<TxtRecord>) {
    forall i :: 0 <= i < |records| ==> RecordReadable(env, did, records[i])
  }

  lemma NothingRead(env: Env, did: string)
    ensures Collects(env, did, ByKind([]), START)
  {
  }

  lemma {:induction false} CollectsAll(env: Env, did: string, records: seq<TxtRecord>)
    ensures ApplyRecords(env, did, START, records).Ok? <==> AllReadable(env, did, records)
    ensures ApplyRecords(env, did, START, records).Ok? ==>
              Collects(env, did, ByKind(records), ApplyRecords(env, did, START, records).value)
    decreases |records|
  {
    hide ApplyRecord, RecordReadable, Collects, ByKind;
    if records == [] {
      NothingRead(env, did);
    } else {
      var front, last := records[..|records| - 1], records[|records| - 1];
      assert records == front + [last];
      CollectsAll(env, did, front);
      ApplyRecordsAppend(env, did, START, front, [last]);
      ByKindSnoc(front, last);
      var p := ApplyRecords(env, did, START, front);
      if p.Ok? {
        CollectsNext(env, did, ByKind(front), p.value, last);
        ApplyRecordsCons(env, did, p.value, last, []);
        assert [last] + [] == [last];
      }
    }
  }

  // ------------------------------------------------------------------ relationships

  lemma {:induction false} ListReadIs(labels: seq<string>, ids: map<string, string>, records: seq<TxtRecord>,
                                      methods: seq<VerificationMethod>)
    requires |records| == |methods| && IndexRead(ids, records, methods)
    ensures References(KnownIds(labels, ids)) == ListRead(labels, records, methods)
  {
    hide IdUnder;
    if labels != [] {
      ListReadIs(labels[1..], ids, records, methods);
      assert Get(ids, labels[0]) == IdUnder(records, methods, labels[0]);
      var rest := KnownIds(labels[1..], ids);
      if labels[0] in ids {
        assert References([ids[labels[0]]] + rest) == [Referenced(Absolute(ids[labels[0]]))] + References(rest);
      } else {
        assert [] + rest == rest;
      }
    }
  }

  lemma {:induction false} RootsSnoc(r: Relationships, roots: seq<string>, last: string, ids: map<string, string>)
    ensures ApplyRoots(r, roots + [last], ids) == ApplyRoot(ApplyRoots(r, roots, ids), last, ids)
    decreases roots
  {
    hide ApplyRoot;
    if roots == [] {
      assert [] + [last] == [last] && [last][1..] == [];
    } else {
      assert (roots + [last])[0] == roots[0] && (roots + [last])[1..] == roots[1..] + [last];
      RootsSnoc(ApplyRoot(r, roots[0], ids), roots[1..], last, ids);
    }
  }

  lemma OneListRead(roots: seq<TxtRecord>, code: string, ids: map<string, string>, records: seq<TxtRecord>,
                    methods: seq<VerificationMethod>)
    requires |records| == |methods| && IndexRead(ids, records, methods) && roots != []
    ensures DecodeList(Properties(LastOf(roots).data), code, ids,
                       LastList(roots[..|roots| - 1], code, records, methods))
            == LastList(roots, code, records, methods)
  {
    hide Properties, KnownIds, ListRead, IndexRead, References;
    var values := Properties(LastOf(roots).data);
    if code in values {
      ListReadIs(Split(values[code], ','), ids, records, methods);
    }
  }

  lemma {:induction false} RootsRead(roots: seq<TxtRecord>, ids: map<string, string>, records: seq<TxtRecord>,
                                     methods: seq<VerificationMethod>)
    requires |records| == |methods| && IndexRead(ids, records, methods)
    ensures ApplyRoots(NO_RELATIONSHIPS, Datas(roots), ids) == AllLists(roots, records, methods)
    decreases |roots|
  {
    hide IndexRead, Properties, DecodeList;
    if roots == [] {
      assert Datas(roots) == [];
    } else {
      var front, last := roots[..|roots| - 1], LastOf(roots);
      RootsRead(front, ids, records, methods);
      assert Datas(roots) == Datas(front) + [last.data];
      RootsSnoc(NO_RELATIONSHIPS, Datas(front), last.data, ids);
      hide ApplyRoots;
      var before := AllLists(front, records, methods);
      OneListRead(roots, "auth", ids, records, methods);
      OneListRead(roots, "asm", ids, records, methods);
      OneListRead(roots, "inv", ids, records, methods);
      OneListRead(roots, "del", ids, records, methods);
      OneListRead(roots, "agm", ids, records, methods);
      hide LastList;
      assert ApplyRoot(before, last.data, ids) == AllLists(roots, records, methods);
    }
  }

  // ------------------------------------------------------------------ the whole packet

  lemma MethodsUnique(env: Env, did: string, records: seq<TxtRecord>, a: seq<VerificationMethod>,
                      b: seq<VerificationMethod>)
    requires MethodsRead(env, did, records, a) && MethodsRead(env, did, records, b)
    ensures a == b
  {
    hide MethodRead, Properties, DecodeMethod;
    forall i | 0 <= i < |a|
      ensures a[i] == b[i]
    {
      MethodReadIff(env, did, records[i].id, records[i].data, a[i]);
      MethodReadIff(env, did, records[i].id, records[i].data, b[i]);
    }
  }

  lemma ServicesUnique(did: string, records: seq<TxtRecord>, a: seq<Service>, b: seq<Service>)
    requires ServicesRead(did, records, a) && ServicesRead(did, records, b)
    ensures a == b
  {
    hide ServiceRead, Properties, DecodeService;
    forall i | 0 <= i < |a|
      ensures a[i] == b[i]
    {
      ServiceReadIff(did, records[i].data, a[i]);
      ServiceReadIff(did, records[i].data, b[i]);
    }
  }

  lemma TypesUnique(records: seq<TxtRecord>, a: Option<seq<u64>>, b: Option<seq<u64>>)
    requires TypesRead(records, a) && TypesRead(records, b)
    ensures a == b
  {
    hide NumbersRead, Properties, DecodeTypes;
    if records != [] {
      NumbersReadIff(LastOf(records).data, a.value);
      NumbersReadIff(LastOf(records).data, b.value);
    }
  }

  /** The records of a packet spell at most one document. */
  lemma ReadUnique(env: Env, did: Did, k: Kinds, d: Document, types: Option<seq<u64>>, e: Document,
                   others: Option<seq<u64>>)
    requires PacketRead(env, did, k, d, types) && PacketRead(env, did, k, e, others)
    ensures d == e && types == others
  {
    hide MethodsRead, ServicesRead, TypesRead, AllLists, Did.ToString;
    MethodsUnique(env, did.ToString(), k.ks, d.verificationMethod, e.verificationMethod);
    ServicesUnique(did.ToString(), k.ss, d.service, e.service);
    TypesUnique(k.typ, types, others);
  }

  lemma AssembledRead(env: Env, did: Did, k: Kinds, p: Progress)
    requires Collects(env, did.ToString(), k, p)
    ensures PacketRead(env, did, k, Assemble(did, p), p.types)
  {
    hide MethodRead, ServiceRead, NumbersRead, Properties, IndexRead, ApplyRoots, LastList, Did.ToString;
    RootsRead(k.roots, p.ids, k.ks, p.methods);
  }

  /** The text answers of a packet. */
  function TextsOnly(answers: seq<Answer>): seq<Answer> {
    if answers == [] then []
    else (if answers[0].Txt? then [answers[0]] else []) + TextsOnly(answers[1..])
  }

  /** The id of a record: the first part of its name after an underscore, or nothing. */
  function IdOfName(name: string): string {
    var first := Split(name, '.')[0];
    if first != "" && first[0] == '_' then first[1..] else ""
  }

  predicate AnswerRead(a: Answer, r: TxtRecord) {
    a.Txt? && ToUtf8(r.data) == Concat(a.strings) && r.id == IdOfName(a.name)
  }

  lemma AnswerReadIff(a: Answer, r: TxtRecord)
    requires a.Txt?
    ensures AnswerRead(a, r) <==> FromUtf8(Concat(a.strings)) == Some(r.data) && LabelOf(a.name) == r.id
  {
    hide ToUtf8, FromUtf8, Concat, Split;
    FromUtf8OfToUtf8(r.data);
    assert "_" <= Split(a.name, '.')[0] <==> Split(a.name, '.')[0] != "" && Split(a.name, '.')[0][0] == '_';
  }

  predicate AnswersRead(texts: seq<Answer>, records: seq<TxtRecord>) {
    |texts| == |records| && forall i :: 0 <= i < |records| ==> AnswerRead(texts[i], records[i])
  }

  lemma AnswersCons(a: Answer, texts: seq<Answer>, r: TxtRecord, records: seq<TxtRecord>)
    ensures AnswersRead([a] + texts, [r] + records) <==> AnswerRead(a, r) && AnswersRead(texts, records)
  {
    hide AnswerRead;
    var all, both := [a] + texts, [r] + records;
    assert all[0] == a && both[0] == r;
    assert forall i :: 0 <= i < |texts| ==> all[i + 1] == texts[i];
    assert forall i :: 0 <= i < |records| ==> both[i + 1] == records[i];
  }

  lemma RecordsCons(a: Answer, rest: seq<Answer>)
    requires a.Txt?
    ensures TextsOnly([a] + rest) == [a] + TextsOnly(rest)
    ensures TxtRecords([a] + rest)
            == (match FromUtf8(Concat(a.strings))
                case None => Err(InvalidDocument)
                case Some(data) =>
                  if TxtRecords(rest).Err? then Err(TxtRecords(rest).error)
                  else Ok([TxtRecord(LabelOf(a.name), data)] + TxtRecords(rest).value))
  {
    hide FromUtf8, Concat, LabelOf;
  }

  /** The records of a packet are its text answers, in order, each with its strings put together as UTF-8. */
  lemma {:induction false} RecordsIff(answers: seq<Answer>, records: seq<TxtRecord>)
    ensures TxtRecords(answers) == Ok(records) <==> AnswersRead(TextsOnly(answers), records)
    decreases answers
  {
    if answers != [] {
      var a, rest := answers[0], answers[1..];
      assert answers == [a] + rest;
      if a.Ns? {
        RecordsIff(rest, records);
        assert TextsOnly(answers) == TextsOnly(rest);
      } else {
        RecordsCons(a, rest);
        hide TxtRecords, TextsOnly, AnswerRead, FromUtf8, Concat, LabelOf;
        if records != [] {
          RecordsIff(rest, records[1..]);
          AnswerReadIff(a, records[0]);
          assert records == [records[0]] + records[1..];
          AnswersCons(a, TextsOnly(rest), records[0], records[1..]);
        }
      }
    }
  }

  /** A packet decodes to a document exactly when the DID is of this method, every text is UTF-8, every record can be
      read, the document is what the records say, and its identifiers are valid. */
  lemma DecodesIff(env: Env, did: Did, answers: seq<Answer>, d: Document, types: Option<seq<u64>>)
    ensures DecodeAnswers(env, did, answers) == Ok(Decoded(d, types))
            <==> (&& did.name == "dht" && TxtRecords(answers).Ok?
                  && AllReadable(env, did.ToString(), TxtRecords(answers).value)
                  && PacketRead(env, did, ByKind(TxtRecords(answers).value), d, types)
                  && Typed(env, d))
  {
    hide TxtRecords, AllReadable, PacketRead, Collects, ByKind, Typed, Assemble, ApplyRecords, Did.ToString;
    if TxtRecords(answers).Ok? {
      var records, text := TxtRecords(answers).value, did.ToString();
      CollectsAll(env, text, records);
      if ApplyRecords(env, text, START, records).Ok? {
        var p := ApplyRecords(env, text, START, records).value;
        AssembledRead(env, did, ByKind(records), p);
        if PacketRead(env, did, ByKind(records), d, types) {
          ReadUnique(env, did, ByKind(records), d, types, Assemble(did, p), p.types);
        }
      }
    }
  }

  /** Records of no known kind make no difference: whatever they say, the packet reads as it does without them. */
  lemma UnknownRecordIgnored(env: Env, did: string, records: seq<TxtRecord>, r: TxtRecord)
    requires !("aka" <= r.id) && !("cnt" <= r.id) && !("k" <= r.id) && !("s" <= r.id) && !("typ" <= r.id)
             && !("did" <= r.id)
    ensures ByKind(records + [r]) == ByKind(records) && RecordReadable(env, did, r)
  {
    hide ByKind;
    ByKindSnoc(records, r);
  }
}

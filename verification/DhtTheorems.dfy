/** The round-trip theorems of the `did:dht` codec. */
module DhtTheorems {
  import opened Wrappers
  import opened Text
  import opened DidDocument
  import opened DhtRecords
  import opened DhtEncode
  import opened DhtDecode
  import opened DhtNormal
  import opened DhtRoundTrip
  import opened DhtRelationships

  // ------------------------------------------------------------------ what an accepted plan holds

  predicate PlannedVms(env: Env, did: string, methods: seq<VerificationMethod>, vms: seq<EncodedVm>) {
    && Encodes(env, did, methods, vms)
    && DistinctFragments(vms)
    && vms != [] && vms[0].fragment == "0"
  }

  lemma AcceptedWhenEncoded(env: Env, doc: Document)
    requires PlanVms(env, doc).Ok?
    ensures AcceptedMethods(env, doc)
    ensures PlannedVms(env, doc.id.ToString(), IdentityFirst(doc.id.ToString(), doc.verificationMethod),
                       PlanVms(env, doc).value)
  {
    hide EncodeMethod, MoveToFront;
    var did := doc.id.ToString();
    var vms := EncodeMethods(env, did, doc.verificationMethod, {}).value;
    EncodeMethodsFacts(env, did, doc.verificationMethod, {});
    PositionsAgree(env, did, doc.verificationMethod, vms);
    MovedEncodes(env, did, doc.verificationMethod, vms, IdentityPosition(vms).value);
  }

  lemma ZeroOnlyFirst(vms: seq<EncodedVm>)
    requires DistinctFragments(vms) && vms != [] && vms[0].fragment == "0"
    ensures forall i :: 0 <= i < |vms| ==> (0 + i == 0 <==> vms[i].fragment == "0")
  {
  }

  // ------------------------------------------------------------------ the smaller records

  lemma AkaReadsBack(env: Env, did: string, p: Progress, aka: seq<string>)
    requires AllScalar(aka) && p.aka == []
    ensures ApplyRecords(env, did, p, RecordsOf(AkaTexts(aka))) == Ok(p.(aka := aka))
  {
    hide Join, Split, LabelOf;
    if aka == [] {
      assert RecordsOf(AkaTexts(aka)) == [];
    } else {
      CommaListSplits(aka);
      LabelOfName("aka", "_did.");
      assert "_" + "aka" + "." + "_did." == "_aka._did.";
      ApplyRecordsCons(env, did, p, TxtRecord("aka", Join(aka, ',')), []);
      assert RecordsOf(AkaTexts(aka)) == [TxtRecord("aka", Join(aka, ','))] + [];
    }
  }

  lemma ControllerReadsBack(env: Env, did: string, p: Progress, c: Option<OneOrMany>)
    requires ControllerStrings(c).Ok? && p.controller == None
    ensures ApplyRecords(env, did, p, RecordsOf(ControllerTexts(ControllerStrings(c).value)))
            == Ok(p.(controller := NormalController(c)))
  {
    hide LabelOf, Split;
    var strings := ControllerStrings(c).value;
    if strings == None {
      assert RecordsOf(ControllerTexts(strings)) == [];
    } else {
      var data := Join(strings.value, ',');
      if strings.value == [] {
        assert Split("", ',') == [""];
      } else {
        CommaListSplits(strings.value);
      }
      assert Some(ControllerOf(data)) == NormalController(c);
      LabelOfName("cnt", "_did.");
      assert "_" + "cnt" + "." + "_did." == "_cnt._did.";
      ApplyRecordsCons(env, did, p, TxtRecord("cnt", data), []);
      assert "aka"[0] == 'a';
      assert RecordsOf(ControllerTexts(strings)) == [TxtRecord("cnt", data)] + [];
    }
  }

  lemma RootReadsBack(env: Env, did: string, p: Progress, suffix: string, data: string)
    ensures ApplyRecords(env, did, p, RecordsOf([NamedText("_did." + suffix + ".", data)]))
            == Ok(p.(roots := p.roots + [data]))
  {
    hide LabelOf;
    LabelOfName("did", suffix + ".");
    assert "_" + "did" + "." + (suffix + ".") == "_did." + suffix + ".";
    ApplyRecordsCons(env, did, p, TxtRecord("did", data), []);
    assert "aka"[0] == 'a' && "cnt"[0] == 'c' && "k"[0] == 'k' && "s"[0] == 's' && "typ"[0] == 't' && "did"[0] == 'd';
    assert RecordsOf([NamedText("_did." + suffix + ".", data)]) == [TxtRecord("did", data)] + [];
  }

  lemma DecimalsCons(n: u64, rest: seq<u64>)
    ensures Decimals([n] + rest) == [Decimal(n)] + Decimals(rest)
  {
  }

  lemma ParseTypesCons(text: string, n: u64, rest: seq<string>)
    requires ParseU64(text) == Some(n) && ParseTypes(rest).Ok?
    ensures ParseTypes([text] + rest) == Ok([n] + ParseTypes(rest).value)
  {
  }

  lemma {:induction false} TypesParse(types: seq<u64>)
    ensures ParseTypes(Decimals(types)) == Ok(types)
  {
    hide Decimal, ParseU64, ParseTypes, Decimals;
    if types == [] {
      NoTypes();
    } else {
      var n, rest := types[0], types[1..];
      TypesParse(rest);
      ParseDecimal(n);
      DecimalsCons(n, rest);
      ParseTypesCons(Decimal(n), n, Decimals(rest));
      assert types == [n] + rest;
    }
  }

  lemma NoTypes()
    ensures ParseTypes(Decimals([])) == Ok([])
  {
  }

  function TypesRead(types: seq<u64>): Option<seq<u64>> {
    if types == [] then None else Some(types)
  }

  lemma TypesReadBack(env: Env, did: string, p: Progress, types: seq<u64>)
    requires p.types == None
    ensures ApplyRecords(env, did, p, RecordsOf(TypeTexts(types))) == Ok(p.(types := TypesRead(types)))
  {
    hide LabelOf, Join, Split, ParseTypes, PairsText, Properties;
    if types == [] {
      assert RecordsOf(TypeTexts(types)) == [];
    } else {
      var pair := Pair("id", Join(Decimals(types), ','));
      forall i | 0 <= i < |types|
        ensures Scalar(Decimals(types)[i])
      {
        DecimalScalar(types[i]);
      }
      CommaListListable(Decimals(types));
      CommaListSplits(Decimals(types));
      PropertiesOfPairs([pair]);
      PairsMapOne(pair);
      TypesParse(types);
      LabelOfName("typ", "_did.");
      assert "_" + "typ" + "." + "_did." == "_typ._did.";
      ApplyRecordsCons(env, did, p, TxtRecord("typ", PairsText([pair])), []);
      assert "aka"[0] == 'a' && "cnt"[0] == 'c' && "k"[0] == 'k' && "s"[0] == 's' && "typ"[0] == 't';
      assert RecordsOf(TypeTexts(types)) == [TxtRecord("typ", PairsText([pair]))] + [];
    }
  }

  // ------------------------------------------------------------------ the whole packet

  lemma RecordsOfAppend(a: seq<NamedText>, b: seq<NamedText>)
    ensures RecordsOf(a + b) == RecordsOf(a) + RecordsOf(b)
  {
  }

  /** Reading the records of two lists of texts in turn. */
  lemma ReadAppend(env: Env, did: string, p: Progress, a: seq<NamedText>, b: seq<NamedText>)
    ensures ApplyRecords(env, did, p, RecordsOf(a + b))
            == Continue(env, did, ApplyRecords(env, did, p, RecordsOf(a)), RecordsOf(b))
  {
    hide RecordsOf, ApplyRecords;
    RecordsOfAppend(a, b);
    ApplyRecordsAppend(env, did, p, RecordsOf(a), RecordsOf(b));
  }

  function RootText(plan: Plan): string {
    PairsText(RootPairs(|plan.vms|, plan.listPairs, |plan.services|))
  }

  /** What the reader has collected after every record of an encoded document. */
  function Collected(env: Env, doc: Document, plan: Plan, types: seq<u64>): Result<Progress, DhtError>
    requires forall i :: 0 <= i < |IdentityFirst(doc.id.ToString(), doc.verificationMethod)| ==>
               AcceptedMethod(env, doc.id.ToString(), IdentityFirst(doc.id.ToString(), doc.verificationMethod)[i])
  {
    var methods :- NormalMethods(env, doc.id.ToString(), IdentityFirst(doc.id.ToString(), doc.verificationMethod));
    var services :- NormalServices(doc.service);
    Ok(Progress(doc.alsoKnownAs, NormalController(doc.controller), methods, services, AddIds(map[], methods, 0),
                [RootText(plan)], TypesRead(types)))
  }

  lemma PlanFacts(env: Env, doc: Document)
    requires MakePlan(env, doc).Ok?
    ensures var plan := MakePlan(env, doc).value;
            var did := doc.id.ToString();
            && PlanVms(env, doc) == Ok(plan.vms)
            && plan.aka == doc.alsoKnownAs && AllScalar(plan.aka)
            && ControllerStrings(doc.controller) == Ok(plan.controllers)
            && PlanServices(doc.service, did, {}) == Ok(plan.services)
            && ResolveLists(doc.relationships, did) == Ok(plan.lists)
            && MandatoryListsHold(plan.lists, did + "#0")
            && ListPairs(plan.vms, did, plan.lists) == Ok(plan.listPairs)
  {
    hide PlanVms, PlanServices, ResolveLists, ListPairs, ControllerStrings, AllScalar, MandatoryListsHold;
  }

  lemma IdentityFirstAccepted(env: Env, doc: Document)
    requires AcceptedMethods(env, doc)
    ensures var methods := IdentityFirst(doc.id.ToString(), doc.verificationMethod);
            forall i :: 0 <= i < |methods| ==> AcceptedMethod(env, doc.id.ToString(), methods[i])
  {
  }

  lemma PacketReadsBack(env: Env, doc: Document, types: seq<u64>)
    requires MakePlan(env, doc).Ok? && AcceptedMethods(env, doc)
    requires forall i :: 0 <= i < |IdentityFirst(doc.id.ToString(), doc.verificationMethod)| ==>
               AcceptedMethod(env, doc.id.ToString(), IdentityFirst(doc.id.ToString(), doc.verificationMethod)[i])
    ensures ApplyRecords(env, doc.id.ToString(), START, RecordsOf(PlanTexts(MakePlan(env, doc).value, doc, types)))
            == Collected(env, doc, MakePlan(env, doc).value, types)
  {
    var did := doc.id.ToString();
    hide ApplyRecords, RecordsOf, AkaTexts, ControllerTexts, VmTexts, ServiceTexts, TypeTexts, MakePlan, NormalMethods,
      NormalServices, NormalController, AddIds, ControllerStrings, PlanServices, PlanVms, IdentityFirst, RootText,
      Encodes, AcceptedMethods, DistinctFragments, ListPairs, ResolveLists, AllScalar, MandatoryListsHold,
      AcceptedMethod, TypesRead, PairsText, RootPairs, Did.ToString;
    var plan := MakePlan(env, doc).value;
    PlanFacts(env, doc);
    var aka, cnt, vms, svc := AkaTexts(plan.aka), ControllerTexts(plan.controllers), VmTexts(plan.vms, did, 0),
      ServiceTexts(plan.services, 0);
    var root := [NamedText("_did." + doc.id.id + ".", RootText(plan))];
    assert RootText(plan) == PairsText(RootPairs(|plan.vms|, plan.listPairs, |plan.services|)) by { RootTextIs(plan); }
    assert PlanTexts(plan, doc, types) == aka + cnt + vms + svc + root + TypeTexts(types);
    ReadAppend(env, did, START, aka + cnt + vms + svc + root, TypeTexts(types));
    ReadAppend(env, did, START, aka + cnt + vms + svc, root);
    ReadAppend(env, did, START, aka + cnt + vms, svc);
    ReadAppend(env, did, START, aka + cnt, vms);
    ReadAppend(env, did, START, aka, cnt);

    var methods := IdentityFirst(did, doc.verificationMethod);
    AcceptedWhenEncoded(env, doc);
    ZeroOnlyFirst(plan.vms);
    AkaReadsBack(env, did, START, plan.aka);
    var p1 := START.(aka := plan.aka);
    ControllerReadsBack(env, did, p1, doc.controller);
    var p2 := p1.(controller := NormalController(doc.controller));
    MethodsReadBack(env, did, p2, methods, plan.vms, 0);
    if NormalMethods(env, did, methods).Ok? {
      var ns := NormalMethods(env, did, methods).value;
      assert [] + ns == ns;
      var p3 := p2.(methods := ns, ids := AddIds(map[], ns, 0));
      ServicesReadBack(env, did, p3, doc.service, {}, 0);
      if NormalServices(doc.service).Ok? {
        var ss := NormalServices(doc.service).value;
        assert [] + ss == ss;
        var p4 := p3.(services := ss);
        RootReadsBack(env, did, p4, doc.id.id, RootText(plan));
        assert [] + [RootText(plan)] == [RootText(plan)];
        TypesReadBack(env, did, p4.(roots := [RootText(plan)]), types);
      }
    }
  }

  lemma RootTextIs(plan: Plan)
    ensures RootText(plan) == PairsText(RootPairs(|plan.vms|, plan.listPairs, |plan.services|))
  {
  }

  function WithTypes(r: Result<Document, DhtError>, types: seq<u64>): Result<Decoded, DhtError> {
    if r.Err? then Err(r.error) else Ok(Decoded(r.value, TypesRead(types)))
  }

  lemma IndexFromStart(methods: seq<VerificationMethod>)
    ensures IndexHolds(AddIds(map[], methods, 0), methods)
  {
    hide VmLabel;
    forall j | 0 <= j < |methods|
      ensures VmLabel(j) in AddIds(map[], methods, 0) && AddIds(map[], methods, 0)[VmLabel(j)] == methods[j].id
    {
      AddIdsLookup(map[], methods, 0, j);
    }
  }

  lemma AssembledIsNormal(env: Env, doc: Document, types: seq<u64>)
    requires MakePlan(env, doc).Ok? && AcceptedMethods(env, doc)
    requires forall i :: 0 <= i < |IdentityFirst(doc.id.ToString(), doc.verificationMethod)| ==>
               AcceptedMethod(env, doc.id.ToString(), IdentityFirst(doc.id.ToString(), doc.verificationMethod)[i])
    ensures var r := Collected(env, doc, MakePlan(env, doc).value, types);
            (if r.Err? then Err(r.error) else Finish(env, doc.id, r.value)) == WithTypes(Normal(env, doc), types)
  {
    hide MakePlan, PlanVms, PlanServices, ResolveLists, ListPairs, ControllerStrings, AllScalar, MandatoryListsHold,
      AcceptedMethods, AcceptedMethod, IdentityFirst, NormalMethods, NormalServices, NormalController,
      NormalRelationships, Typed, TypesRead, AddIds, RootText, ApplyRoot, Encodes, DistinctFragments, IndexHolds,
      Did.ToString;
    var did := doc.id.ToString();
    var plan := MakePlan(env, doc).value;
    var methods := IdentityFirst(did, doc.verificationMethod);
    PlanFacts(env, doc);
    AcceptedWhenEncoded(env, doc);
    if NormalMethods(env, did, methods).Ok? && NormalServices(doc.service).Ok? {
      var ns := NormalMethods(env, did, methods).value;
      IndexFromStart(ns);
      RelationshipsReadBack(env, did, methods, plan.vms, ns, AddIds(map[], ns, 0), doc.relationships, |plan.services|);
      RootTextIs(plan);
      OneRoot(RootText(plan), AddIds(map[], ns, 0));
    }
  }

  lemma OneRoot(root: string, ids: map<string, string>)
    ensures ApplyRoots(NO_RELATIONSHIPS, [root], ids) == ApplyRoot(NO_RELATIONSHIPS, root, ids)
  {
  }

  /** Decoding an encoded document gives exactly its normal form, or fails exactly as the normal
      form says it does; the types come back unchanged and gateway records do not matter. */
  lemma EncodeThenDecode(env: Env, doc: Document, types: seq<u64>, gateways: seq<Gateway>)
    requires EncodeAnswers(env, doc, types, gateways).Ok?
    ensures AcceptedMethods(env, doc)
    ensures DecodeAnswers(env, doc.id, EncodeAnswers(env, doc, types, gateways).value)
            == WithTypes(Normal(env, doc), types)
  {
    hide MakePlan, PlanTexts, TextAnswers, NsAnswers, NsTargets, ApplyRecords, RecordsOf, TxtRecords, Collected, Finish,
      Normal, PlanVms, AcceptedMethod, IdentityFirst, Did.ToString, TypesRead;
    var plan := MakePlan(env, doc).value;
    var texts := PlanTexts(plan, doc, types);
    var root := "_did." + doc.id.id + ".";
    var targets := NsTargets(gateways).value;
    PlanFacts(env, doc);
    AcceptedWhenEncoded(env, doc);
    IdentityFirstAccepted(env, doc);
    TextsReadBack(texts);
    NsIgnored(targets, root);
    TxtRecordsAppend(TextAnswers(texts), NsAnswers(targets, root));
    assert RecordsOf(texts) + [] == RecordsOf(texts);
    PacketReadsBack(env, doc, types);
    AssembledIsNormal(env, doc, types);
    DhtMethod(env, doc);
  }

  lemma DhtMethod(env: Env, doc: Document)
    requires PlanVms(env, doc).Ok?
    ensures doc.id.name == "dht"
  {
  }
}

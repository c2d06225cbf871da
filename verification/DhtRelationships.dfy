/** Re-indexing: the encoder rewrites the five relationship lists through `k0..kn`, the decoder
    rewrites them back, and no entry changes its target. */
module DhtRelationships {
  import opened Wrappers
  import opened Text
  import opened DidDocument
  import opened DhtRecords
  import opened DhtEncode
  import opened DhtDecode
  import opened DhtNormal
  import opened DhtRoundTrip

  /** The wire text of a relationship list; an empty list is not written. */
  function ListText(vms: seq<EncodedVm>, did: string, ids: seq<string>): Option<string> {
    if ids == [] then None
    else
      var labels :- LookupLabels(vms, did, ids);
      Some(Join(labels, ','))
  }

  function Codes(lists: seq<ResolvedList>): set<string> {
    set i | 0 <= i < |lists| :: lists[i].code
  }

  predicate DistinctCodes(lists: seq<ResolvedList>) {
    lists != [] ==> lists[0].code !in Codes(lists[1..]) && DistinctCodes(lists[1..])
  }

  lemma VmLabelScalar(i: nat)
    ensures Scalar(VmLabel(i))
  {
  }

  lemma {:induction false} LookupLabelScalar(vms: seq<EncodedVm>, did: string, id: string, start: nat)
    ensures var r := LookupLabel(vms, did, id, start); r.Some? ==> Scalar(r.value)
    decreases vms
  {
    hide VmLabel;
    if vms != [] {
      VmLabelScalar(start);
      LookupLabelScalar(vms[1..], did, id, start + 1);
    }
  }

  lemma LookupLabelsScalar(vms: seq<EncodedVm>, did: string, ids: seq<string>)
    requires LookupLabels(vms, did, ids).Some?
    ensures AllScalar(LookupLabels(vms, did, ids).value)
  {
    hide Scalar;
    var labels := LookupLabels(vms, did, ids).value;
    forall i | 0 <= i < |labels|
      ensures Scalar(labels[i])
    {
      LookupLabelScalar(vms, did, ids[i], 0);
    }
  }

  predicate ListSpelled(vms: seq<EncodedVm>, did: string, list: ResolvedList, values: map<string, string>) {
    && Get(values, list.code) == ListText(vms, did, list.ids)
    && (list.ids != [] ==> LookupLabels(vms, did, list.ids).Some?)
  }

  predicate ListsSpell(vms: seq<EncodedVm>, did: string, lists: seq<ResolvedList>, values: map<string, string>) {
    && values.Keys <= Codes(lists)
    && (forall i :: 0 <= i < |lists| ==> ListSpelled(vms, did, lists[i], values))
  }

  /** A further list under a fresh code leaves the others as they were. */
  lemma ListsSpellCons(vms: seq<EncodedVm>, did: string, first: ResolvedList, lists: seq<ResolvedList>,
                       values: map<string, string>)
    requires ListsSpell(vms, did, lists, values) && first.code !in Codes(lists)
    requires first.ids != [] ==> LookupLabels(vms, did, first.ids).Some?
    ensures ListsSpell(vms, did, [first] + lists,
                       (if first.ids == [] then map[] else map[first.code := ListText(vms, did, first.ids).value])
                         + values)
  {
    hide LookupLabels;
    var all := [first] + lists;
    assert Codes(all) == {first.code} + Codes(lists) by {
      assert all[0] == first;
      assert forall i :: 0 <= i < |lists| ==> lists[i] == all[i + 1];
    }
    forall i | 0 <= i < |lists|
      ensures lists[i].code in Codes(lists) && all[i + 1] == lists[i]
    {
    }
  }

  lemma {:induction false} ListPairsSpell(vms: seq<EncodedVm>, did: string, lists: seq<ResolvedList>)
    requires ListPairs(vms, did, lists).Ok? && DistinctCodes(lists)
    requires forall i :: 0 <= i < |lists| ==> Listable(lists[i].code)
    ensures ListsSpell(vms, did, lists, PairsMap(ListPairs(vms, did, lists).value))
    ensures SafePairs(ListPairs(vms, did, lists).value)
    decreases lists
  {
    hide LookupLabels, Join, PairsMap, ListSpelled, Codes;
    if lists == [] {
      NoPairs();
    } else {
      var rest := ListPairs(vms, did, lists[1..]).value;
      ListPairsSpell(vms, did, lists[1..]);
      ListsSpellCons(vms, did, lists[0], lists[1..], PairsMap(rest));
      assert lists == [lists[0]] + lists[1..];
      if lists[0].ids == [] {
        assert map[] + PairsMap(rest) == PairsMap(rest);
      } else {
        var labels := LookupLabels(vms, did, lists[0].ids).value;
        var first := Pair(lists[0].code, Join(labels, ','));
        LookupLabelsScalar(vms, did, lists[0].ids);
        CommaListListable(labels);
        PairsMapAppend([first], rest);
        PairsMapOne(first);
      }
    }
  }

  lemma NoPairs()
    ensures PairsMap([]) == map[]
  {
  }

  // ------------------------------------------------------------------ reading the lists back

  lemma LabelsScalar(count: nat, f: nat -> string)
    requires forall i: nat :: Scalar(f(i))
    ensures AllScalar(Labels(count, f))
  {
  }

  lemma RootPairsSafe(vmCount: nat, lists: seq<Pair>, serviceCount: nat)
    requires SafePairs(lists)
    ensures SafePairs(RootPairs(vmCount, lists, serviceCount))
  {
    hide Join, Labels, Scalar;
    forall i: nat
      ensures Scalar(VmLabel(i)) && Scalar(ServiceLabel(i))
    {
      DecimalScalar(i);
      LabelScalar("k", i);
      LabelScalar("s", i);
    }
    LabelsScalar(vmCount, VmLabel);
    LabelsScalar(serviceCount, ServiceLabel);
    CommaListListable(Labels(vmCount, VmLabel));
    CommaListListable(Labels(serviceCount, ServiceLabel));
  }

  lemma LabelScalar(letter: string, i: nat)
    requires Scalar(letter)
    ensures Scalar(letter + Decimal(i))
  {
  }

  lemma RootPairsMap(vmCount: nat, lists: seq<Pair>, serviceCount: nat, code: string)
    requires code !in {"v", "vm", "svc"}
    ensures Get(PairsMap(RootPairs(vmCount, lists, serviceCount)), code) == Get(PairsMap(lists), code)
  {
    hide PairsMap, Join, Labels;
    var v, vm := Pair("v", "0"), Pair("vm", Join(Labels(vmCount, VmLabel), ','));
    var svc := OptionalPair(serviceCount > 0, "svc", Join(Labels(serviceCount, ServiceLabel), ','));
    assert RootPairs(vmCount, lists, serviceCount) == [v] + [vm] + lists + svc;
    PairsMapAppend([v], [vm]);
    PairsMapAppend([v] + [vm], lists);
    PairsMapAppend([v] + [vm] + lists, svc);
    PairsMapOne(v);
    PairsMapOne(vm);
    OptionalPairMap(serviceCount > 0, "svc", Join(Labels(serviceCount, ServiceLabel), ','));
  }

  /** The reader's index leads from each label to the id of the method recorded under it. */
  predicate IndexHolds(ids: map<string, string>, normal: seq<VerificationMethod>) {
    forall j :: 0 <= j < |normal| ==> VmLabel(j) in ids && ids[VmLabel(j)] == normal[j].id
  }

  /** The ids that a list of document ids becomes. */
  predicate Renamed(methods: seq<VerificationMethod>, normal: seq<VerificationMethod>, before: seq<string>,
                    after: seq<string>)
    requires |methods| == |normal|
  {
    && |before| == |after|
    && forall i :: 0 <= i < |before| ==>
                     IndexOf(methods, before[i]).Some? && after[i] == normal[IndexOf(methods, before[i]).value].id
  }

  lemma {:induction false} LabelsLeadBack(env: Env, did: string, methods: seq<VerificationMethod>, vms: seq<EncodedVm>,
                                          normal: seq<VerificationMethod>, ids: map<string, string>, list: seq<string>)
    requires Encodes(env, did, methods, vms) && |normal| == |methods| && IndexHolds(ids, normal)
    requires LookupLabels(vms, did, list).Some?
    ensures Renamed(methods, normal, list, KnownIds(LookupLabels(vms, did, list).value, ids))
    decreases list
  {
    hide Encodes, VmLabel, LookupLabel;
    if list != [] {
      LookupAgrees(env, did, methods, vms, list[0], 0);
      LabelsLeadBack(env, did, methods, vms, normal, ids, list[1..]);
      var labels := LookupLabels(vms, did, list).value;
      assert labels[1..] == LookupLabels(vms, did, list[1..]).value;
    }
  }

  /** One relationship list survives the trip: same methods, same order, duplicates kept. */
  lemma ListReadBack(env: Env, did: string, methods: seq<VerificationMethod>, vms: seq<EncodedVm>,
                     normal: seq<VerificationMethod>, ids: map<string, string>,
                     entries: seq<Relationship>, code: string, mandatory: bool, values: map<string, string>)
    requires Encodes(env, did, methods, vms) && |normal| == |methods| && IndexHolds(ids, normal)
    requires ResolveAll(entries, did).Ok?
    requires ListSpelled(vms, did, ResolvedList(code, mandatory, ResolveAll(entries, did).value), values)
    ensures DecodeList(values, code, ids, []) == NormalList(entries, did, methods, normal)
  {
    hide Encodes, VmLabel, IndexHolds, Join;
    var list := ResolveAll(entries, did).value;
    if list == [] {
      assert entries == [];
      assert NormalList(entries, did, methods, normal) == [];
    } else {
      var labels := LookupLabels(vms, did, list).value;
      LookupLabelsScalar(vms, did, list);
      CommaListSplits(labels);
      LabelsLeadBack(env, did, methods, vms, normal, ids, list);
      assert DecodeList(values, code, ids, []) == References(KnownIds(labels, ids));
    }
  }

  /** All five lists survive the trip. */
  lemma RelationshipsReadBack(env: Env, did: string, methods: seq<VerificationMethod>, vms: seq<EncodedVm>,
                              normal: seq<VerificationMethod>, ids: map<string, string>,
                              r: Relationships, serviceCount: nat)
    requires Encodes(env, did, methods, vms) && |normal| == |methods| && IndexHolds(ids, normal)
    requires ResolveLists(r, did).Ok? && ListPairs(vms, did, ResolveLists(r, did).value).Ok?
    ensures var pairs := ListPairs(vms, did, ResolveLists(r, did).value).value;
            ApplyRoot(NO_RELATIONSHIPS, PairsText(RootPairs(|vms|, pairs, serviceCount)), ids)
            == NormalRelationships(r, did, methods, normal)
  {
    hide Encodes, IndexHolds, PairsMap, PairsText, Properties, RootPairs, DecodeList, NormalList, ResolveAll,
      ResolveLists, ListPairs, ListSpelled, DistinctCodes, SafePairs, Codes, Get;
    var lists := ResolveLists(r, did).value;
    var pairs := ListPairs(vms, did, lists).value;
    ListEntries(r, did);
    ListCodes(r, did);
    ListPairsSpell(vms, did, lists);
    RootPairsSafe(|vms|, pairs, serviceCount);
    RootReads(|vms|, pairs, serviceCount);
    var values := Properties(PairsText(RootPairs(|vms|, pairs, serviceCount)));
    OneList(env, did, methods, vms, normal, ids, r.authentication, lists[0], PairsMap(pairs), values);
    OneList(env, did, methods, vms, normal, ids, r.assertionMethod, lists[1], PairsMap(pairs), values);
    OneList(env, did, methods, vms, normal, ids, r.capabilityInvocation, lists[2], PairsMap(pairs), values);
    OneList(env, did, methods, vms, normal, ids, r.capabilityDelegation, lists[3], PairsMap(pairs), values);
    OneList(env, did, methods, vms, normal, ids, r.keyAgreement, lists[4], PairsMap(pairs), values);
  }

  lemma OneList(env: Env, did: string, methods: seq<VerificationMethod>, vms: seq<EncodedVm>,
                normal: seq<VerificationMethod>, ids: map<string, string>,
                entries: seq<Relationship>, list: ResolvedList, spelled: map<string, string>,
                values: map<string, string>)
    requires Encodes(env, did, methods, vms) && |normal| == |methods| && IndexHolds(ids, normal)
    requires ResolveAll(entries, did) == Ok(list.ids)
    requires ListSpelled(vms, did, list, spelled) && Get(values, list.code) == Get(spelled, list.code)
    ensures DecodeList(values, list.code, ids, []) == NormalList(entries, did, methods, normal)
  {
    hide Encodes, IndexHolds, LookupLabels;
    ListReadBack(env, did, methods, vms, normal, ids, entries, list.code, list.mandatory, values);
  }

  lemma ListEntries(r: Relationships, did: string)
    requires ResolveLists(r, did).Ok?
    ensures var lists := ResolveLists(r, did).value;
            && |lists| == 5
            && ResolveAll(r.authentication, did) == Ok(lists[0].ids) && lists[0].code == "auth"
            && ResolveAll(r.assertionMethod, did) == Ok(lists[1].ids) && lists[1].code == "asm"
            && ResolveAll(r.capabilityInvocation, did) == Ok(lists[2].ids) && lists[2].code == "inv"
            && ResolveAll(r.capabilityDelegation, did) == Ok(lists[3].ids) && lists[3].code == "del"
            && ResolveAll(r.keyAgreement, did) == Ok(lists[4].ids) && lists[4].code == "agm"
            && (forall i :: 0 <= i < 5 ==> (lists[i].mandatory <==> i < 4))
  {
  }

  lemma ListCodes(r: Relationships, did: string)
    requires ResolveLists(r, did).Ok?
    ensures var lists := ResolveLists(r, did).value;
            && DistinctCodes(lists) && |lists| == 5
            && (forall i :: 0 <= i < |lists| ==> Listable(lists[i].code) && lists[i].code !in {"v", "vm", "svc"})
  {
    hide ResolveAll;
    var lists := ResolveLists(r, did).value;
    assert DistinctCodes(lists[5..]);
    assert lists[4..][1..] == lists[5..] && DistinctCodes(lists[4..]);
    assert lists[3..][1..] == lists[4..] && DistinctCodes(lists[3..]);
    assert lists[2..][1..] == lists[3..] && DistinctCodes(lists[2..]);
    assert lists[1..][1..] == lists[2..] && DistinctCodes(lists[1..]);
  }

  lemma RootReads(vmCount: nat, lists: seq<Pair>, serviceCount: nat)
    requires SafePairs(RootPairs(vmCount, lists, serviceCount))
    ensures forall code :: code !in {"v", "vm", "svc"} ==>
              Get(Properties(PairsText(RootPairs(vmCount, lists, serviceCount))), code) == Get(PairsMap(lists), code)
  {
    hide PairsMap, Properties, PairsText, Join, Labels;
    PropertiesOfPairs(RootPairs(vmCount, lists, serviceCount));
    forall code | code !in {"v", "vm", "svc"}
      ensures Get(Properties(PairsText(RootPairs(vmCount, lists, serviceCount))), code) == Get(PairsMap(lists), code)
    {
      RootPairsMap(vmCount, lists, serviceCount, code);
    }
  }
}

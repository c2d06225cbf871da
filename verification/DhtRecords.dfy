/** The text layer shared by the `did:dht` encoder and decoder: `key=value` pairs joined by
    semicolons, comma lists, record names, and TXT answers. */
module DhtRecords {
  import opened Wrappers
  import opened Text
  import opened Bytes
  import opened Utf8
  import opened Segments
  import opened DidDocument

  // ------------------------------------------------------------------ scalars and pairs

  /** A value that carries none of the wire delimiters. */
  predicate Scalar(s: string) {
    '=' !in s && ';' !in s && ',' !in s
  }

  /** A value that may be a comma list. */
  predicate Listable(s: string) {
    '=' !in s && ';' !in s
  }

  datatype Pair = Pair(key: string, value: string) {
    function Text(): string {
      key + "=" + value
    }
  }

  predicate SafePairs(pairs: seq<Pair>) {
    forall i :: 0 <= i < |pairs| ==> Listable(pairs[i].key) && Listable(pairs[i].value)
  }

  function PairTexts(pairs: seq<Pair>): seq<string> {
    seq(|pairs|, i requires 0 <= i < |pairs| => pairs[i].Text())
  }

  /** The text of a record made of pairs. */
  function PairsText(pairs: seq<Pair>): string {
    Join(PairTexts(pairs), ';')
  }

  /** The map a pair list collects into: the last pair with a key wins. */
  function PairsMap(pairs: seq<Pair>): map<string, string> {
    if pairs == [] then map[]
    else PairsMap(pairs[..|pairs| - 1])[pairs[|pairs| - 1].key := pairs[|pairs| - 1].value]
  }

  function ParsePair(text: string): Pair {
    var parts := Split(text, '=');
    Pair(parts[0], if |parts| >= 2 then parts[1] else "")
  }

  function ParsePairs(texts: seq<string>): seq<Pair> {
    seq(|texts|, i requires 0 <= i < |texts| => ParsePair(texts[i]))
  }

  /** `properties`: what the decoder reads out of a record's text. */
  function Properties(data: string): map<string, string> {
    PairsMap(ParsePairs(Split(data, ';')))
  }

  lemma ParsePairOfText(p: Pair)
    requires Listable(p.key) && Listable(p.value)
    ensures ParsePair(p.Text()) == p
    ensures ';' !in p.Text()
  {
    assert p.Text() == p.key + ['='] + p.value;
    SplitAppend(p.key, '=', p.value);
  }

  /** The decoder reads back exactly the pairs the encoder joined. */
  lemma PropertiesOfPairs(pairs: seq<Pair>)
    requires pairs != [] && SafePairs(pairs)
    ensures Properties(PairsText(pairs)) == PairsMap(pairs)
  {
    var texts := PairTexts(pairs);
    forall i | 0 <= i < |pairs|
      ensures ParsePair(texts[i]) == pairs[i] && ';' !in texts[i]
    {
      ParsePairOfText(pairs[i]);
    }
    SplitJoin(texts, ';');
    assert ParsePairs(texts) == pairs;
  }

  lemma {:induction false} PairsMapAppend(a: seq<Pair>, b: seq<Pair>)
    ensures PairsMap(a + b) == PairsMap(a) + PairsMap(b)
  {
    if b == [] {
      assert a + b == a;
    } else {
      var c := a + b;
      assert c[..|c| - 1] == a + b[..|b| - 1];
      PairsMapAppend(a, b[..|b| - 1]);
    }
  }

  lemma PairsMapOne(p: Pair)
    ensures PairsMap([p]) == map[p.key := p.value]
  {
  }

  // ------------------------------------------------------------------ comma lists

  predicate AllScalar(items: seq<string>) {
    forall i :: 0 <= i < |items| ==> Scalar(items[i])
  }

  lemma CommaListListable(items: seq<string>)
    requires AllScalar(items)
    ensures Listable(Join(items, ','))
  {
  }

  lemma CommaListSplits(items: seq<string>)
    requires items != [] && AllScalar(items)
    ensures Split(Join(items, ','), ',') == items
    ensures (',' in Join(items, ',')) <==> |items| >= 2
  {
    SplitJoin(items, ',');
    JoinHasSeparator(items, ',');
  }

  // ------------------------------------------------------------------ names and answers

  /** One record of the packet's answer section: a TXT record, or any other kind. */
  datatype Answer = Txt(name: string, strings: seq<bytes>) | Ns(name: string, target: string)

  datatype TxtRecord = TxtRecord(id: string, data: string)

  function StripPrefix(s: string, prefix: string): (r: Option<string>)
    ensures r.Some? <==> prefix <= s
    ensures r.Some? ==> s == prefix + r.value
  {
    if prefix <= s then Some(s[|prefix|..]) else None
  }

  /** First label of a name without its underscore; empty when there is no underscore. */
  function LabelOf(name: string): string {
    StripPrefix(Split(name, '.')[0], "_").GetOr("")
  }

  lemma LabelOfName(first: string, tail: string)
    requires '.' !in first
    ensures LabelOf("_" + first + "." + tail) == first
  {
    var name := "_" + first + "." + tail;
    assert name == ("_" + first) + ['.'] + tail;
    SplitAppend("_" + first, '.', tail);
    assert ("_" + first)[|"_"|..] == first;
  }

  function TxtAnswer(name: string, text: string): Answer {
    Txt(name, CharSegments(text))
  }

  /** `txt_records`: the TXT answers, each reassembled into text; one that is not UTF-8 fails all. */
  function TxtRecords(answers: seq<Answer>): Result<seq<TxtRecord>, DhtError> {
    if answers == [] then Ok([])
    else
      match answers[0]
      case Ns(_, _) => TxtRecords(answers[1..])
      case Txt(name, strings) =>
        match FromUtf8(Concat(strings))
        case None => Err(InvalidDocument)
        case Some(data) =>
          var rest :- TxtRecords(answers[1..]);
          Ok([TxtRecord(LabelOf(name), data)] + rest)
  }

  lemma {:induction false} TxtRecordsAppend(a: seq<Answer>, b: seq<Answer>)
    requires TxtRecords(a).Ok? && TxtRecords(b).Ok?
    ensures TxtRecords(a + b) == Ok(TxtRecords(a).value + TxtRecords(b).value)
  {
    if a == [] {
      assert a + b == b;
      assert [] + TxtRecords(b).value == TxtRecords(b).value;
    } else {
      TxtRecordsAppend(a[1..], b);
      assert (a + b)[1..] == a[1..] + b;
      if a[0].Txt? {
        var first := [TxtRecord(LabelOf(a[0].name), FromUtf8(Concat(a[0].strings)).value)];
        var rest := TxtRecords(a[1..]).value;
        assert first + rest + TxtRecords(b).value == first + (rest + TxtRecords(b).value);
      }
    }
  }
}

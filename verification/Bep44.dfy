/** BEP 44 framing: the relay envelope and the signing preimage. */
module Bep44 {
  import opened Wrappers
  import opened Bytes
  import opened Text
  import opened Utf8
  import opened DidDocument

  const SIGNATURE_LEN: nat := 64
  const SEQUENCE_LEN: nat := 8
  const HEADER_LEN: nat := SIGNATURE_LEN + SEQUENCE_LEN
  const MAX_VALUE_LEN: nat := 1000
  const MIN_RELAY_PAYLOAD_LEN: nat := HEADER_LEN
  const MAX_RELAY_PAYLOAD_LEN: nat := HEADER_LEN + MAX_VALUE_LEN

  type Signature = b: bytes | |b| == SIGNATURE_LEN witness seq(SIGNATURE_LEN, _ => 0)

  datatype Message = Message(signature: Signature, sequence: u64, value: bytes)

  // ------------------------------------------------------------------ the relay envelope

  function ParseRelayPayload(payload: bytes): Result<Message, DhtError> {
    if !(MIN_RELAY_PAYLOAD_LEN <= |payload| <= MAX_RELAY_PAYLOAD_LEN) then
      Err(InvalidDocumentLength(MIN_RELAY_PAYLOAD_LEN, MAX_RELAY_PAYLOAD_LEN, |payload|))
    else
      SequenceFits(payload[SIGNATURE_LEN..HEADER_LEN]);
      Ok(Message(payload[..SIGNATURE_LEN], FromBigEndian(payload[SIGNATURE_LEN..HEADER_LEN]), payload[HEADER_LEN..]))
  }

  function RelayBody(m: Message): bytes {
    m.signature + BigEndian(m.sequence, SEQUENCE_LEN) + m.value
  }

  lemma Pow256Eight()
    ensures Pow256(8) == U64_LIMIT
  {
  }

  lemma SequenceFits(b: bytes)
    requires |b| == SEQUENCE_LEN
    ensures FromBigEndian(b) < U64_LIMIT
  {
    BigEndianOfFromBigEndian(b);
    Pow256Eight();
  }

  /** The body is the signature, the sequence number in eight bytes and the value. Parsing undoes building for
      every value of at most 1000 bytes, and only for those. */
  lemma ParseRelayBody(m: Message)
    ensures |RelayBody(m)| == 72 + |m.value|
    ensures RelayBody(m)[..64] == m.signature && FromBigEndian(RelayBody(m)[64..72]) == m.sequence
    ensures RelayBody(m)[72..] == m.value
    ensures ParseRelayPayload(RelayBody(m))
            == if |m.value| <= 1000 then Ok(m) else Err(InvalidDocumentLength(72, 1072, 72 + |m.value|))
  {
    var body := RelayBody(m);
    var sequence := BigEndian(m.sequence, SEQUENCE_LEN);
    assert body[..SIGNATURE_LEN] == m.signature;
    assert body[SIGNATURE_LEN..HEADER_LEN] == sequence;
    assert body[HEADER_LEN..] == m.value;
    Pow256Eight();
    FromBigEndianOfBigEndian(m.sequence, SEQUENCE_LEN);
  }

  /** Building undoes parsing, and the parsed payloads are exactly those of 72 to 1072 bytes. */
  lemma RelayBodyOfParsed(payload: bytes)
    ensures ParseRelayPayload(payload).Ok? <==> 72 <= |payload| <= 1072
    ensures ParseRelayPayload(payload).Err? ==>
              ParseRelayPayload(payload) == Err(InvalidDocumentLength(72, 1072, |payload|))
    ensures ParseRelayPayload(payload).Ok? ==>
              var m := ParseRelayPayload(payload).value;
              && m.signature == payload[..64] && m.sequence == FromBigEndian(payload[64..72])
              && m.value == payload[72..] && RelayBody(m) == payload
  {
    if ParseRelayPayload(payload).Ok? {
      BigEndianOfFromBigEndian(payload[SIGNATURE_LEN..HEADER_LEN]);
      assert payload == payload[..SIGNATURE_LEN] + payload[SIGNATURE_LEN..HEADER_LEN] + payload[HEADER_LEN..];
    }
  }

  // ------------------------------------------------------------------ the signing preimage

  function SigningPrefix(sequence: u64, length: nat): string {
    "3:seqi" + Decimal(sequence) + "e1:v" + Decimal(length) + ":"
  }

  function SigningPayload(sequence: u64, value: bytes): bytes {
    ToUtf8(SigningPrefix(sequence, |value|)) + value
  }

  predicate DigitByte(b: byte) {
    0x30 <= b <= 0x39
  }

  predicate DigitBytes(v: bytes) {
    forall i :: 0 <= i < |v| ==> DigitByte(v[i])
  }

  lemma {:induction false} DigitsToBytes(s: string)
    requires AllDigits(s)
    ensures DigitBytes(ToUtf8(s))
    decreases s
  {
    if s != "" {
      DigitsToBytes(s[1..]);
    }
  }

  /** A run of digits ends where the first other byte stands. */
  lemma DigitsEnd(d: bytes, r: bytes, e: bytes, q: bytes)
    requires DigitBytes(d) && DigitBytes(e)
    requires r != [] && !DigitByte(r[0]) && q != [] && !DigitByte(q[0])
    requires d + r == e + q
    ensures d == e && r == q
  {
    assert (d + r)[|d|] == r[0] && (e + q)[|e|] == q[0];
    assert |d| == |e|;
    assert (d + r)[..|d|] == d && (e + q)[..|e|] == e;
    assert (d + r)[|d|..] == r && (e + q)[|e|..] == q;
  }

  const OPENING: string := "3:seqi"
  const MIDDLE: string := "e1:v"
  const CLOSING: string := ":"

  lemma PrefixBytes(sequence: u64, value: bytes)
    ensures SigningPayload(sequence, value)
            == ToUtf8(OPENING) + (ToUtf8(Decimal(sequence))
                                  + (ToUtf8(MIDDLE) + (ToUtf8(Decimal(|value|)) + (ToUtf8(CLOSING) + value))))
  {
    hide ToUtf8, Decimal;
    ToUtf8Append(OPENING + Decimal(sequence) + MIDDLE + Decimal(|value|), CLOSING);
    ToUtf8Append(OPENING + Decimal(sequence) + MIDDLE, Decimal(|value|));
    ToUtf8Append(OPENING + Decimal(sequence), MIDDLE);
    ToUtf8Append(OPENING, Decimal(sequence));
  }

  lemma FixedBytes()
    ensures ToUtf8(MIDDLE) != [] && !DigitByte(ToUtf8(MIDDLE)[0])
    ensures ToUtf8(CLOSING) != [] && !DigitByte(ToUtf8(CLOSING)[0])
  {
  }

  lemma CancelPrefix(a: bytes, b: bytes, c: bytes)
    requires a + b == a + c
    ensures b == c
  {
    assert (a + b)[|a|..] == b && (a + c)[|a|..] == c;
  }

  /** The preimage loses nothing: a signed payload has one sequence number and one value. */
  lemma SigningPayloadInjective(s: u64, v: bytes, t: u64, w: bytes)
    requires SigningPayload(s, v) == SigningPayload(t, w)
    ensures s == t && v == w
  {
    hide SigningPayload, ToUtf8, Decimal;
    PrefixBytes(s, v);
    PrefixBytes(t, w);
    FixedBytes();
    DigitsToBytes(Decimal(s));
    DigitsToBytes(Decimal(t));
    DigitsToBytes(Decimal(|v|));
    DigitsToBytes(Decimal(|w|));
    var restV, restW := ToUtf8(CLOSING) + v, ToUtf8(CLOSING) + w;
    var midV, midW := ToUtf8(MIDDLE) + (ToUtf8(Decimal(|v|)) + restV), ToUtf8(MIDDLE) + (ToUtf8(Decimal(|w|)) + restW);
    CancelPrefix(ToUtf8(OPENING), ToUtf8(Decimal(s)) + midV, ToUtf8(Decimal(t)) + midW);
    DigitsEnd(ToUtf8(Decimal(s)), midV, ToUtf8(Decimal(t)), midW);
    CancelPrefix(ToUtf8(MIDDLE), ToUtf8(Decimal(|v|)) + restV, ToUtf8(Decimal(|w|)) + restW);
    DigitsEnd(ToUtf8(Decimal(|v|)), restV, ToUtf8(Decimal(|w|)), restW);
    CancelPrefix(ToUtf8(CLOSING), v, w);
    ToUtf8Injective(Decimal(s), Decimal(t));
    DecimalInjective(s, t);
  }

  // ------------------------------------------------------------------ the preimage is bencoded

  datatype Bencoded = Integer(n: nat) | ByteString(b: bytes) | Dictionary(entries: seq<(string, Bencoded)>)

  /** BEP 3: integers between `i` and `e`, byte strings after their length, dictionaries between `d` and `e`. */
  function Bencode(v: Bencoded): bytes
    decreases v, 0
  {
    match v
    case Integer(n) => [0x69] + ToUtf8(Decimal(n)) + [0x65]
    case ByteString(b) => BencodeString(b)
    case Dictionary(entries) => [0x64] + BencodeEntries(v, 0) + [0x65]
  }

  function BencodeString(b: bytes): bytes {
    ToUtf8(Decimal(|b|)) + [0x3a] + b
  }

  function BencodeEntries(v: Bencoded, i: nat): bytes
    requires v.Dictionary? && i <= |v.entries|
    decreases v, 0, |v.entries| - i
  {
    if i == |v.entries| then []
    else BencodeString(ToUtf8(v.entries[i].0)) + Bencode(v.entries[i].1) + BencodeEntries(v, i + 1)
  }

  function SignedDictionary(sequence: u64, value: bytes): Bencoded {
    Dictionary([("seq", Integer(sequence)), ("v", ByteString(value))])
  }

  lemma AsciiPieces()
    ensures ToUtf8("3:seqi") == BencodeString(ToUtf8("seq")) + [0x69]
    ensures ToUtf8("e1:v") == [0x65] + BencodeString(ToUtf8("v"))
    ensures ToUtf8(":") == [0x3a]
  {
    assert ToUtf8("seq") == [0x73, 0x65, 0x71] && ToUtf8("v") == [0x76];
    assert ToUtf8("3:seqi") == [0x33, 0x3a, 0x73, 0x65, 0x71, 0x69];
    assert ToUtf8("e1:v") == [0x65, 0x31, 0x3a, 0x76];
    assert Decimal(3) == "3" && Decimal(1) == "1" && ToUtf8("3") == [0x33] && ToUtf8("1") == [0x31];
  }

  /** What is signed is the bencoded dictionary of the sequence number and the value, without the letters that
      open and close it. */
  lemma SigningPayloadIsBencoded(sequence: u64, value: bytes)
    ensures [0x64] + SigningPayload(sequence, value) + [0x65] == Bencode(SignedDictionary(sequence, value))
  {
    hide ToUtf8, Decimal;
    var d := SignedDictionary(sequence, value);
    PrefixBytes(sequence, value);
    AsciiPieces();
    assert BencodeEntries(d, 2) == [];
    assert BencodeEntries(d, 1) == BencodeString(ToUtf8("v")) + Bencode(ByteString(value)) + [];
    assert BencodeEntries(d, 0) == BencodeString(ToUtf8("seq")) + Bencode(Integer(sequence)) + BencodeEntries(d, 1);
  }

  /** The example of BEP 44. */
  lemma SigningPayloadExample()
    ensures SigningPayload(1, ToUtf8("Hello World!")) == ToUtf8("3:seqi1e1:v12:Hello World!")
  {
    hide ToUtf8;
    assert |ToUtf8("Hello World!")| == 12 by { TwelveBytes(); }
    assert Decimal(1) == "1" && Decimal(12) == "12";
    assert SigningPrefix(1, 12) == "3:seqi1e1:v12:";
    ToUtf8Append("3:seqi1e1:v12:", "Hello World!");
    assert "3:seqi1e1:v12:" + "Hello World!" == "3:seqi1e1:v12:Hello World!";
  }

  lemma TwelveBytes()
    ensures |ToUtf8("Hello World!")| == 12
  {
  }
}

/** Unpadded URL-safe base64 with the strict decoder both codecs rely on
    (section 5 of RFC 4648): stray characters, a lone final character and non-zero
    trailing bits are all rejected. */
module Base64Url {
  import opened Wrappers
  import opened Bytes

  type sextet = v: int | 0 <= v < 64

  function Symbol(v: sextet): char {
    if v < 26 then 'A' + v as char
    else if v < 52 then 'a' + (v - 26) as char
    else if v < 62 then '0' + (v - 52) as char
    else if v == 62 then '-'
    else '_'
  }

  function SymbolValue(c: char): (r: Option<sextet>)
    ensures r.Some? ==> Symbol(r.value) == c
  {
    if 'A' <= c <= 'Z' then Some((c - 'A') as int)
    else if 'a' <= c <= 'z' then Some((c - 'a') as int + 26)
    else if '0' <= c <= '9' then Some((c - '0') as int + 52)
    else if c == '-' then Some(62)
    else if c == '_' then Some(63)
    else None
  }

  lemma SymbolValueOfSymbol(v: sextet)
    ensures SymbolValue(Symbol(v)) == Some(v)
  {
  }

  predicate InAlphabet(s: string) {
    forall i :: 0 <= i < |s| ==> SymbolValue(s[i]).Some?
  }

  function Encode(b: bytes): (s: string)
    ensures b != [] ==> s != ""
  {
    if |b| == 0 then ""
    else if |b| == 1 then [Symbol(b[0] / 4), Symbol(b[0] % 4 * 16)]
    else if |b| == 2 then [Symbol(b[0] / 4), Symbol(b[0] % 4 * 16 + b[1] / 16), Symbol(b[1] % 16 * 4)]
    else
      [Symbol(b[0] / 4), Symbol(b[0] % 4 * 16 + b[1] / 16),
       Symbol(b[1] % 16 * 4 + b[2] / 64), Symbol(b[2] % 64)] + Encode(b[3..])
  }

  function Sextets(s: string): Option<seq<sextet>> {
    if s == "" then Some([])
    else
      var v :- SymbolValue(s[0]);
      var rest :- Sextets(s[1..]);
      Some([v] + rest)
  }

  // The three bytes that four sextets spell.
  function FirstByte(p: int, q: int): int { p * 4 + q / 16 }
  function SecondByte(q: int, r: int): int { q % 16 * 16 + r / 4 }
  function ThirdByte(r: int, t: int): int { r % 4 * 64 + t }

  function Pack(v: seq<sextet>): Option<bytes> {
    if |v| == 0 then Some([])
    else if |v| == 1 then None
    else if |v| == 2 then
      if v[1] % 16 != 0 then None else Some([FirstByte(v[0], v[1])])
    else if |v| == 3 then
      if v[2] % 4 != 0 then None else Some([FirstByte(v[0], v[1]), SecondByte(v[1], v[2])])
    else
      var rest :- Pack(v[4..]);
      Some([FirstByte(v[0], v[1]), SecondByte(v[1], v[2]), ThirdByte(v[2], v[3])] + rest)
  }

  function Decode(s: string): Option<bytes> {
    var v :- Sextets(s);
    Pack(v)
  }

  function Unpack(b: bytes): seq<sextet> {
    if |b| == 0 then []
    else if |b| == 1 then [b[0] / 4, b[0] % 4 * 16]
    else if |b| == 2 then [b[0] / 4, b[0] % 4 * 16 + b[1] / 16, b[1] % 16 * 4]
    else [b[0] / 4, b[0] % 4 * 16 + b[1] / 16, b[1] % 16 * 4 + b[2] / 64, b[2] % 64] + Unpack(b[3..])
  }

  function Symbols(v: seq<sextet>): string {
    seq(|v|, i requires 0 <= i < |v| => Symbol(v[i]))
  }

  lemma {:induction false} EncodeIsSymbols(b: bytes)
    ensures Encode(b) == Symbols(Unpack(b))
  {
    if |b| >= 3 {
      EncodeIsSymbols(b[3..]);
    }
  }

  lemma {:induction false} SextetsOfSymbols(v: seq<sextet>)
    ensures Sextets(Symbols(v)) == Some(v)
  {
    if v != [] {
      SymbolValueOfSymbol(v[0]);
      SextetsOfSymbols(v[1..]);
      assert Symbols(v)[1..] == Symbols(v[1..]);
      assert v == [v[0]] + v[1..];
    }
  }

  lemma Regroup(x: byte, y: byte, z: byte)
    ensures FirstByte(x / 4, x % 4 * 16 + y / 16) == x
    ensures SecondByte(x % 4 * 16 + y / 16, y % 16 * 4 + z / 64) == y
    ensures ThirdByte(y % 16 * 4 + z / 64, z % 64) == z
    ensures (x % 4 * 16) % 16 == 0 && (y % 16 * 4) % 4 == 0
  {
  }

  lemma {:induction false} PackUnpack(b: bytes)
    ensures Pack(Unpack(b)) == Some(b)
  {
    if |b| == 1 {
      Regroup(b[0], 0, 0);
      assert Pack(Unpack(b)).value == [b[0]];
      assert b == [b[0]];
    } else if |b| == 2 {
      Regroup(b[0], b[1], 0);
      assert Pack(Unpack(b)).value == [b[0], b[1]];
      assert b == [b[0], b[1]];
    } else if |b| >= 3 {
      PackUnpack(b[3..]);
      Regroup(b[0], b[1], b[2]);
      assert Unpack(b)[4..] == Unpack(b[3..]);
      assert b == [b[0], b[1], b[2]] + b[3..];
    }
  }

  /** Decoding undoes encoding on every byte string. */
  lemma DecodeEncode(b: bytes)
    ensures Decode(Encode(b)) == Some(b)
  {
    EncodeIsSymbols(b);
    SextetsOfSymbols(Unpack(b));
    PackUnpack(b);
  }

  lemma {:induction false} UnpackPack(v: seq<sextet>)
    requires Pack(v).Some?
    ensures Unpack(Pack(v).value) == v
  {
    if |v| == 2 {
      UngroupOne(v[0], v[1]);
      assert v == [v[0], v[1]];
    } else if |v| == 3 {
      Ungroup(v[0], v[1], v[2], 0);
      assert v == [v[0], v[1], v[2]];
    } else if |v| >= 4 {
      UnpackPack(v[4..]);
      Ungroup(v[0], v[1], v[2], v[3]);
      assert Pack(v).value[3..] == Pack(v[4..]).value;
      assert v == [v[0], v[1], v[2], v[3]] + v[4..];
    }
  }

  lemma UngroupOne(p: sextet, q: sextet)
    requires q % 16 == 0
    ensures var x := FirstByte(p, q); 0 <= x < 256 && x / 4 == p && x % 4 * 16 == q
  {
  }

  lemma Ungroup(p: sextet, q: sextet, r: sextet, t: sextet)
    ensures var x, y, z := FirstByte(p, q), SecondByte(q, r), ThirdByte(r, t);
            && 0 <= x < 256 && 0 <= y < 256 && 0 <= z < 256
            && x / 4 == p && x % 4 * 16 + y / 16 == q && y % 16 * 4 + z / 64 == r && z % 64 == t
    ensures r % 4 == 0 ==> SecondByte(q, r) % 16 * 4 == r
  {
  }

  lemma {:induction false} SymbolsOfSextets(s: string)
    requires Sextets(s).Some?
    ensures Symbols(Sextets(s).value) == s
  {
    if s != "" {
      SymbolsOfSextets(s[1..]);
      var v := Sextets(s).value;
      assert v[1..] == Sextets(s[1..]).value;
      assert Symbols(v)[0] == s[0];
      assert Symbols(v)[1..] == Symbols(v[1..]);
      assert s == [s[0]] + s[1..];
      assert Symbols(v) == [Symbols(v)[0]] + Symbols(v)[1..];
    }
  }

  /** The decoder is strict: a text decodes only if it is the one spelling of its bytes. */
  lemma EncodeDecode(s: string)
    requires Decode(s).Some?
    ensures Encode(Decode(s).value) == s
  {
    EncodeIsSymbols(Decode(s).value);
    UnpackPack(Sextets(s).value);
    SymbolsOfSextets(s);
  }

  lemma EncodeInjective(a: bytes, b: bytes)
    requires Encode(a) == Encode(b)
    ensures a == b
  {
    DecodeEncode(a);
    DecodeEncode(b);
  }

  /** Encoded text never carries a character that the record or token framings reserve. */
  lemma EncodeDelimiterFree(b: bytes)
    ensures InAlphabet(Encode(b))
    ensures '=' !in Encode(b) && ';' !in Encode(b) && ',' !in Encode(b) && '.' !in Encode(b)
  {
    EncodeIsSymbols(b);
    var v := Unpack(b);
    forall i | 0 <= i < |v|
      ensures SymbolValue(Symbols(v)[i]).Some?
    {
      SymbolValueOfSymbol(v[i]);
    }
  }

  /** The examples of section 10 of RFC 4648, without their padding: the letters of `foobar`. */
  lemma Examples()
    ensures Encode([0x66]) == "Zg" && Encode([0x66, 0x6f]) == "Zm8" && Encode([0x66, 0x6f, 0x6f]) == "Zm9v"
    ensures Encode([0x66, 0x6f, 0x6f, 0x62, 0x61, 0x72]) == "Zm9vYmFy"
  {
    assert [0x66, 0x6f, 0x6f, 0x62, 0x61, 0x72][3..] == [0x62, 0x61, 0x72];
    assert [0x62, 0x61, 0x72][3..] == [];
    assert Encode([0x62, 0x61, 0x72]) == "YmFy";
  }

  /** The alphabet of section 5 of RFC 4648: capital letters, small letters, digits, the hyphen and the underscore. */
  lemma Alphabet()
    ensures Symbol(0) == 'A' && Symbol(25) == 'Z' && Symbol(26) == 'a' && Symbol(51) == 'z'
    ensures Symbol(52) == '0' && Symbol(61) == '9' && Symbol(62) == '-' && Symbol(63) == '_'
    ensures forall v: sextet :: v < 61 && v != 25 && v != 51 ==> Symbol(v + 1) as int == Symbol(v) as int + 1
  {
  }
}

/** UTF-8 (section 3 of RFC 3629): the byte form of text, its character boundaries, and
    the reader that accepts exactly the byte form of some text. */
module Utf8 {
  import opened Bytes
  import opened Wrappers

  predicate Continuation(b: byte) {
    0x80 <= b < 0xC0
  }

  function EncodeChar(c: char): (b: bytes)
    ensures 1 <= |b| <= 4
    ensures !Continuation(b[0])
    ensures forall i :: 0 < i < |b| ==> Continuation(b[i])
  {
    var n := c as int;
    if n < 0x80 then [n]
    else if n < 0x800 then [0xC0 + n / 0x40, 0x80 + n % 0x40]
    else if n < 0x1_0000 then [0xE0 + n / 0x1000, 0x80 + n / 0x40 % 0x40, 0x80 + n % 0x40]
    else [0xF0 + n / 0x4_0000, 0x80 + n / 0x1000 % 0x40, 0x80 + n / 0x40 % 0x40, 0x80 + n % 0x40]
  }

  function ToUtf8(s: string): bytes {
    if s == "" then [] else EncodeChar(s[0]) + ToUtf8(s[1..])
  }

  /** `str::is_char_boundary`. */
  predicate IsBoundary(v: bytes, i: nat)
    requires i <= |v|
  {
    i == 0 || i == |v| || !Continuation(v[i])
  }

  // ------------------------------------------------------------------ reading back

  /** Length of the character that a lead byte opens. */
  function LeadLength(b: byte): nat {
    if b < 0xC0 then 1 else if b < 0xE0 then 2 else if b < 0xF0 then 3 else 4
  }

  /** Code point spelled by the first character of `v`. */
  function FirstCode(v: bytes): int
    requires v != [] && LeadLength(v[0]) <= |v|
  {
    var lead: int := v[0];
    if lead < 0xC0 then lead
    else if lead < 0xE0 then Shift(lead - 0xC0, v[1])
    else if lead < 0xF0 then Shift(Shift(lead - 0xE0, v[1]), v[2])
    else Shift(Shift(Shift(lead - 0xF0, v[1]), v[2]), v[3])
  }

  /** Append the six bits of a continuation byte. */
  function Shift(code: int, b: byte): int {
    code * 0x40 + (b - 0x80)
  }

  /** Dropping the last six bits and appending them again changes nothing. */
  lemma ShiftBack(n: nat)
    ensures Shift(n / 0x40, 0x80 + n % 0x40) == n
  {
  }

  lemma FirstCodeOfChar(c: char)
    ensures LeadLength(EncodeChar(c)[0]) == |EncodeChar(c)|
    ensures FirstCode(EncodeChar(c)) == c as int
  {
    var n := c as int;
    ShiftBack(n);
    ShiftBack(n / 0x40);
    ShiftBack(n / 0x1000);
    assert n / 0x40 / 0x40 == n / 0x1000;
    assert n / 0x1000 / 0x40 == n / 0x4_0000;
  }

  lemma FirstCodeOfPrefix(v: bytes, rest: bytes)
    requires v != [] && LeadLength(v[0]) == |v|
    ensures FirstCode(v + rest) == FirstCode(v)
  {
  }

  lemma ToUtf8Cons(c: char, s: string)
    ensures ToUtf8([c] + s) == EncodeChar(c) + ToUtf8(s)
  {
  }

  /** The first character of `v`, if `v` opens with the form that the encoder gives it: overlong
      forms, surrogates and stray continuation bytes are all rejected. */
  function FirstChar(v: bytes): (r: Option<char>)
    requires v != []
    ensures r.Some? ==> EncodeChar(r.value) <= v
  {
    if |v| < LeadLength(v[0]) then None
    else
      var code := FirstCode(v);
      if !(0 <= code < 0xD800 || 0xE000 <= code < 0x11_0000) then None
      else if EncodeChar(code as char) <= v then Some(code as char)
      else None
  }

  /** `String::from_utf8`. */
  function FromUtf8(v: bytes): (r: Option<string>)
    ensures r.Some? ==> ToUtf8(r.value) == v
  {
    if v == [] then Some("")
    else
      var c :- FirstChar(v);
      var rest :- FromUtf8(v[|EncodeChar(c)|..]);
      ToUtf8Cons(c, rest);
      Some([c] + rest)
  }

  /** Reading back the byte form of any text gives that text. */
  lemma {:induction false} FromUtf8OfToUtf8(s: string)
    ensures FromUtf8(ToUtf8(s)) == Some(s)
  {
    if s != "" {
      var p := EncodeChar(s[0]);
      FirstCodeOfChar(s[0]);
      FirstCodeOfPrefix(p, ToUtf8(s[1..]));
      FromUtf8OfToUtf8(s[1..]);
      assert FirstChar(ToUtf8(s)) == Some(s[0]);
      hide FirstChar, EncodeChar;
      assert ToUtf8(s)[..|p|] == p && ToUtf8(s)[|p|..] == ToUtf8(s[1..]);
      assert s == [s[0]] + s[1..];
    }
  }

  /** Two texts with the same byte form are the same text. */
  lemma ToUtf8Injective(s: string, t: string)
    requires ToUtf8(s) == ToUtf8(t)
    ensures s == t
  {
    FromUtf8OfToUtf8(s);
    FromUtf8OfToUtf8(t);
  }

  ghost predicate IsUtf8(v: bytes) {
    exists s: string :: ToUtf8(s) == v
  }

  // ------------------------------------------------------------------ boundaries

  lemma {:induction false} ToUtf8Append(s: string, t: string)
    ensures ToUtf8(s + t) == ToUtf8(s) + ToUtf8(t)
  {
    hide EncodeChar;
    if s == "" {
      assert s + t == t;
    } else {
      ToUtf8Append(s[1..], t);
      assert (s + t)[0] == s[0] && (s + t)[1..] == s[1..] + t;
      var first, rest := EncodeChar(s[0]), ToUtf8(s[1..]);
      assert first + (rest + ToUtf8(t)) == (first + rest) + ToUtf8(t);
    }
  }

  lemma {:induction false} BoundaryIsOffset(s: string, i: nat) returns (k: nat)
    requires i <= |ToUtf8(s)| && IsBoundary(ToUtf8(s), i)
    ensures k <= |s| && |ToUtf8(s[..k])| == i
  {
    var v := ToUtf8(s);
    if i == 0 {
      k := 0;
    } else {
      var n := |EncodeChar(s[0])|;
      assert v[..n] == EncodeChar(s[0]);
      assert i >= n;
      assert v[n..] == ToUtf8(s[1..]);
      assert IsBoundary(v[n..], i - n);
      var j := BoundaryIsOffset(s[1..], i - n);
      k := j + 1;
      assert s[..k][1..] == s[1..][..j];
      assert s[..k][0] == s[0];
    }
  }

  /** Every boundary of a text's byte form falls between two characters of the text. */
  lemma BoundarySplitsText(s: string, i: nat) returns (k: nat)
    requires i <= |ToUtf8(s)| && IsBoundary(ToUtf8(s), i)
    ensures k <= |s|
    ensures ToUtf8(s[..k]) == ToUtf8(s)[..i] && ToUtf8(s[k..]) == ToUtf8(s)[i..]
  {
    hide EncodeChar;
    k := BoundaryIsOffset(s, i);
    ToUtf8Append(s[..k], s[k..]);
    assert s[..k] + s[k..] == s;
  }

  /** At most three bytes separate any position from the boundary before it. */
  lemma {:induction false} BoundaryNearby(s: string, i: nat)
    requires i <= |ToUtf8(s)|
    ensures exists j :: 0 <= j <= i && i <= j + 3 && IsBoundary(ToUtf8(s), j)
  {
    hide EncodeChar;
    var v := ToUtf8(s);
    if i <= 3 {
      assert IsBoundary(v, 0);
    } else {
      var p := EncodeChar(s[0]);
      BoundaryNearby(s[1..], i - |p|);
      assert v[|p|..] == ToUtf8(s[1..]);
      var j :| 0 <= j <= i - |p| && i - |p| <= j + 3 && IsBoundary(v[|p|..], j);
      assert IsBoundary(v, |p| + j) by {
        if j == 0 && |s| > 1 {
          assert v[|p|] == EncodeChar(s[1])[0];
        }
      }
    }
  }

  /** One character of each length: a letter, a letter with an accent, a currency sign and a letter of an old script. */
  lemma Examples()
    ensures ToUtf8("\U{41}") == [0x41] && ToUtf8("\U{E9}") == [0xC3, 0xA9]
    ensures ToUtf8("\U{20AC}") == [0xE2, 0x82, 0xAC] && ToUtf8("\U{10348}") == [0xF0, 0x90, 0x8D, 0x88]
  {
  }
}

/** The key wrap as section 2.2.1 of RFC 3394 first describes it: a shift register stepped 6n times. The loops
    over indices compute the same. */
module Rfc3394 {
  import opened Wrappers
  import opened Bytes
  import opened AesKeyWrap

  // ------------------------------------------------------------------ exclusive or of numbers

  /** The eight bytes of the exclusive or of two 64-bit numbers, the first given by its bytes. */
  function XorNumber(a: Half, t: nat): Half {
    BigEndian(XorBits(FromBigEndian(a), t, 64), 8)
  }

  /** One low bit of two numbers split off; then two, four and eight. */
  lemma XorOneBit(x: nat, y: nat, u: nat, v: nat, k: nat)
    requires u < 2 && v < 2
    ensures XorBits(2 * x + u, 2 * y + v, k + 1) == XorBits(u, v, 1) + 2 * XorBits(x, y, k)
  {
    assert (2 * x + u) / 2 == x && (2 * y + v) / 2 == y;
    assert XorBits(u / 2, v / 2, 0) == 0;
  }

  lemma XorTwoBits(x: nat, y: nat, u: nat, v: nat, k: nat)
    requires u < 4 && v < 4
    ensures XorBits(4 * x + u, 4 * y + v, k + 2) == XorBits(u, v, 2) + 4 * XorBits(x, y, k)
  {
    hide XorBits;
    XorOneBit(2 * x + u / 2, 2 * y + v / 2, u % 2, v % 2, k + 1);
    XorOneBit(x, y, u / 2, v / 2, k);
    XorOneBit(u / 2, v / 2, u % 2, v % 2, 1);
  }

  lemma XorFourBits(x: nat, y: nat, u: nat, v: nat, k: nat)
    requires u < 16 && v < 16
    ensures XorBits(16 * x + u, 16 * y + v, k + 4) == XorBits(u, v, 4) + 16 * XorBits(x, y, k)
  {
    hide XorBits;
    XorTwoBits(4 * x + u / 4, 4 * y + v / 4, u % 4, v % 4, k + 2);
    XorTwoBits(x, y, u / 4, v / 4, k);
    XorTwoBits(u / 4, v / 4, u % 4, v % 4, 2);
  }

  lemma XorLowByte(x: nat, y: nat, u: nat, v: nat, k: nat)
    requires u < 256 && v < 256
    ensures XorBits(256 * x + u, 256 * y + v, k + 8) == XorBits(u, v, 8) + 256 * XorBits(x, y, k)
  {
    hide XorBits;
    XorFourBits(16 * x + u / 16, 16 * y + v / 16, u % 16, v % 16, k + 4);
    XorFourBits(x, y, u / 16, v / 16, k);
    XorFourBits(u / 16, v / 16, u % 16, v % 16, 4);
  }

  lemma {:induction false} XorBytes(a: bytes, t: nat)
    ensures |BigEndian(t, |a|)| == |a|
    ensures BigEndian(XorBits(FromBigEndian(a), t, 8 * |a|), |a|)
            == seq(|a|, i requires 0 <= i < |a| => Xor(a[i], BigEndian(t, |a|)[i]))
  {
    if a != [] {
      var front, last := a[..|a| - 1], a[|a| - 1];
      XorBytes(front, t / 256);
      XorNextByte(FromBigEndian(front), last, t, |front|);
      hide XorBits, Xor;
      assert BigEndian(t, |a|) == BigEndian(t / 256, |front|) + [t % 256];
    }
  }

  lemma XorNextByte(x: nat, last: byte, t: nat, width: nat)
    ensures BigEndian(XorBits(256 * x + last, t, 8 * width + 8), width + 1)
            == BigEndian(XorBits(x, t / 256, 8 * width), width) + [Xor(last, t % 256)]
  {
    hide XorBits, BigEndian;
    XorLowByte(x, t / 256, last, t % 256, 8 * width);
    assert t == 256 * (t / 256) + t % 256;
    BigEndianByte(Xor(last, t % 256), XorBits(x, t / 256, 8 * width), width);
  }

  lemma BigEndianByte(low: byte, high: nat, width: nat)
    ensures BigEndian(low + 256 * high, width + 1) == BigEndian(high, width) + [low]
  {
  }

  lemma XorCounterIsXor(a: Half, t: nat)
    ensures XorCounter(a, t) == XorNumber(a, t)
  {
    XorBytes(a, t);
  }

  // ------------------------------------------------------------------ the shift register

  /** Step `t`: encipher the register with the first block, mix `t` in, and shift the blocks by one. */
  function ShiftStep(c: Cipher, kek: bytes, t: nat, s: Registers): (s': Registers)
    requires s.r != []
    ensures |s'.r| == |s.r|
  {
    var (hi, lo) := c.enc(kek, s.a, s.r[0]);
    Registers(XorNumber(hi, t), s.r[1..] + [lo])
  }

  /** The first `t` steps. */
  function Shifted(c: Cipher, kek: bytes, t: nat, s: Registers): (s': Registers)
    requires s.r != []
    ensures |s'.r| == |s.r|
  {
    if t == 0 then s else ShiftStep(c, kek, t, Shifted(c, kek, t - 1, s))
  }

  /** The indexed registers as the shift register has them after `i` steps of a round. */
  function Rotated(s: Registers, i: nat): Registers
    requires i <= |s.r|
  {
    Registers(s.a, s.r[i..] + s.r[..i])
  }

  lemma StepShifts(c: Cipher, kek: bytes, j: nat, i: nat, s: Registers)
    requires i < |s.r|
    ensures ShiftStep(c, kek, |s.r| * j + i + 1, Rotated(s, i)) == Rotated(StepForward(c, kek, j, i, s), i + 1)
  {
    var (hi, lo) := c.enc(kek, s.a, s.r[i]);
    XorCounterIsXor(hi, |s.r| * j + i + 1);
    hide XorCounter, XorNumber;
    var after := s.r[i := lo];
    assert (s.r[i..] + s.r[..i])[1..] + [lo] == after[i + 1..] + after[..i + 1];
  }

  lemma {:induction false} RoundShifts(c: Cipher, kek: bytes, j: nat, i: nat, s: Registers, start: Registers)
    requires i <= |s.r| && start.r != [] && |start.r| == |s.r| && s == Shifted(c, kek, |s.r| * j, start)
    ensures Shifted(c, kek, |s.r| * j + i, start) == Rotated(RoundForward(c, kek, j, i, s), i)
    decreases i
  {
    hide ShiftStep, StepForward;
    if i == 0 {
      assert s.r[0..] + s.r[..0] == s.r;
    } else {
      RoundShifts(c, kek, j, i - 1, s, start);
      StepShifts(c, kek, j, i - 1, RoundForward(c, kek, j, i - 1, s));
    }
  }

  lemma FullRotation(s: Registers)
    ensures Rotated(s, |s.r|) == s
  {
    assert s.r[|s.r|..] + s.r[..|s.r|] == s.r;
  }

  lemma StepsOfRound(n: nat, j: nat)
    requires j > 0
    ensures n * (j - 1) + n == n * j
  {
  }

  lemma {:induction false} RoundsShift(c: Cipher, kek: bytes, j: nat, start: Registers)
    requires start.r != []
    ensures Shifted(c, kek, |start.r| * j, start) == Forward(c, kek, j, start)
  {
    hide Shifted, RoundForward, Rotated;
    if j == 0 {
      NoShift(c, kek, start);
    } else {
      var before := Forward(c, kek, j - 1, start);
      RoundsShift(c, kek, j - 1, start);
      RoundShifts(c, kek, j - 1, |start.r|, before, start);
      StepsOfRound(|start.r|, j);
      FullRotation(RoundForward(c, kek, j - 1, |start.r|, before));
    }
  }

  lemma NoShift(c: Cipher, kek: bytes, start: Registers)
    requires start.r != []
    ensures Shifted(c, kek, 0, start) == start
  {
  }

  // ------------------------------------------------------------------ the wrap is the standard's

  lemma {:induction false} HalfAt(b: bytes, i: nat)
    requires |b| % 8 == 0 && 8 * i < |b|
    ensures Halves(b)[i] == b[8 * i..8 * i + 8]
    decreases i
  {
    if i > 0 {
      HalfAt(b[8..], i - 1);
      var from := 8 * (i - 1);
      assert b[8..][from..from + 8] == b[from + 8..from + 16];
    }
  }

  /** Block `i` of a text of whole blocks. */
  function Block(b: bytes, i: nat): Half
    requires 8 * i + 8 <= |b|
  {
    b[8 * i..8 * i + 8]
  }

  /** A key of n >= 2 blocks wraps to n + 1 blocks: the register and the blocks after 6n steps of the shift
      register that starts from eight bytes `a6` and the blocks of the key. */
  lemma WrapIsShiftRegister(c: Cipher, kek: bytes, plaintext: bytes)
    requires |kek| == 32 && |plaintext| >= 16 && |plaintext| % 8 == 0
    ensures var n := |plaintext| / 8;
            var start := Registers([0xa6, 0xa6, 0xa6, 0xa6, 0xa6, 0xa6, 0xa6, 0xa6],
                                   seq(n, i requires 0 <= i < n => Block(plaintext, i)));
            var last := Shifted(c, kek, 6 * n, start);
            && Wrap(c, kek, plaintext).Ok? && |Wrap(c, kek, plaintext).value| == 8 * n + 8
            && Block(Wrap(c, kek, plaintext).value, 0) == last.a
            && forall i :: 0 <= i < n ==> Block(Wrap(c, kek, plaintext).value, i + 1) == last.r[i]
  {
    hide Shifted, Forward;
    var n := |plaintext| / 8;
    var blocks := seq(n, i requires 0 <= i < n => Block(plaintext, i));
    forall i | 0 <= i < n
      ensures Halves(plaintext)[i] == blocks[i]
    {
      HalfAt(plaintext, i);
    }
    assert Halves(plaintext) == blocks;
    var start := Registers(INITIAL_VALUE, blocks);
    RoundsShift(c, kek, 6, start);
    var last := Forward(c, kek, 6, start);
    var out := last.a + Flatten(last.r);
    assert out[8..] == Flatten(last.r);
    HalvesFlatten(last.r);
    forall i | 0 <= i < n
      ensures Block(out, i + 1) == last.r[i]
    {
      HalfAt(out[8..], i);
      assert out[8..][8 * i..8 * i + 8] == out[8 * (i + 1)..8 * (i + 1) + 8];
    }
  }

  // ------------------------------------------------------------------ the step numbers at an input

  const IDENTITY: Cipher := Cipher((k, a, b) => (a, b), (k, a, b) => (a, b))

  /** A register that ends in `last`. */
  function Ending(last: byte): Half {
    [0xa6, 0xa6, 0xa6, 0xa6, 0xa6, 0xa6, 0xa6, last]
  }

  lemma EndingXor(last: byte, t: nat)
    requires t < 256
    ensures XorCounter(Ending(last), t) == Ending(Xor(last, t))
  {
    SmallBigEndian(t);
    assert Xor(0xa6, 0) == 0xa6;
    hide XorBits, BigEndian, Xor;
    var x := XorCounter(Ending(last), t);
    assert forall i :: 0 <= i < 7 ==> x[i] == Xor(0xa6, 0);
  }

  lemma SmallBigEndian(t: nat)
    requires t < 256
    ensures BigEndian(t, 8) == [0, 0, 0, 0, 0, 0, 0, t]
  {
    assert BigEndian(0, 7) == [0, 0, 0, 0, 0, 0, 0];
  }

  lemma TwoSteps(s: Registers, j: nat, last: byte, kek: bytes)
    requires |s.r| == 2 && s.a == Ending(last) && j < 6
    ensures Xor(Xor(last, 2 * j + 1), 2 * j + 2) < 256
    ensures RoundForward(IDENTITY, kek, j, 2, s) == Registers(Ending(Xor(Xor(last, 2 * j + 1), 2 * j + 2)), s.r)
  {
    hide XorCounter, Xor;
    EndingXor(last, 2 * j + 1);
    EndingXor(Xor(last, 2 * j + 1), 2 * j + 2);
    hide Ending;
    var one := RoundForward(IDENTITY, kek, j, 1, s);
    assert RoundForward(IDENTITY, kek, j, 0, s) == s;
    assert s.r[0 := s.r[0]] == s.r && s.r[1 := s.r[1]] == s.r;
    assert one == StepForward(IDENTITY, kek, j, 0, s);
    assert RoundForward(IDENTITY, kek, j, 2, s) == StepForward(IDENTITY, kek, j, 1, one);
  }

  lemma NextRound(kek: bytes, r: seq<Half>, j: nat, last: byte, next: byte)
    requires |r| == 2 && j < 6 && Forward(IDENTITY, kek, j, Registers(Ending(0xa6), r)) == Registers(Ending(last), r)
    requires Xor(Xor(last, 2 * j + 1), 2 * j + 2) == next
    ensures Forward(IDENTITY, kek, j + 1, Registers(Ending(0xa6), r)) == Registers(Ending(next), r)
  {
    hide RoundForward, Ending, Xor;
    TwoSteps(Registers(Ending(last), r), j, last, kek);
  }

  lemma SixRounds(kek: bytes, r: seq<Half>)
    requires |r| == 2
    ensures Forward(IDENTITY, kek, 6, Registers(Ending(0xa6), r)) == Registers(Ending(0xaa), r)
  {
    hide Ending, Xor;
    assert Forward(IDENTITY, kek, 0, Registers(Ending(0xa6), r)) == Registers(Ending(0xa6), r);
    hide Forward;
    FirstXors();
    LastXors();
    NextRound(kek, r, 0, 0xa6, 0xa5);
    NextRound(kek, r, 1, 0xa5, 0xa2);
    NextRound(kek, r, 2, 0xa2, 0xa1);
    NextRound(kek, r, 3, 0xa1, 0xae);
    NextRound(kek, r, 4, 0xae, 0xad);
    NextRound(kek, r, 5, 0xad, 0xaa);
  }

  lemma LowHalfXor(u: nat, v: nat)
    requires u < 16 && v < 16
    ensures XorBits(u, v, 4) < 16 && Xor(0xa0 + u, v) == 0xa0 + XorBits(u, v, 4)
  {
    assert Pow2(4) == 16 && XorBits(10, 0, 4) == 10;
    XorBitsBound(u, v, 4);
    hide XorBits;
    XorFourBits(10, 0, u, v, 4);
  }

  lemma TwoXors(u: nat, t: nat, m: nat, v: nat)
    requires u < 16 && t < 15 && XorBits(u, t, 4) == m && XorBits(m, t + 1, 4) == v
    ensures v < 16 && Xor(Xor(0xa0 + u, t), t + 1) == 0xa0 + v
  {
    hide Xor, XorBits;
    LowHalfXor(u, t);
    LowHalfXor(m, t + 1);
  }

  lemma FirstXors()
    ensures Xor(Xor(0xa6, 1), 2) == 0xa5 && Xor(Xor(0xa5, 3), 4) == 0xa2 && Xor(Xor(0xa2, 5), 6) == 0xa1
  {
    hide Xor;
    TwoXors(6, 1, 7, 5);
    TwoXors(5, 3, 6, 2);
    TwoXors(2, 5, 7, 1);
  }

  lemma LastXors()
    ensures Xor(Xor(0xa1, 7), 8) == 0xae && Xor(Xor(0xae, 9), 10) == 0xad && Xor(Xor(0xad, 11), 12) == 0xaa
  {
    hide Xor;
    TwoXors(1, 7, 6, 14);
    TwoXors(14, 9, 7, 13);
    TwoXors(13, 11, 6, 10);
  }

  /** Under the cipher that changes nothing, a key of two blocks is kept, and the register collects the twelve
      step numbers: their exclusive or is twelve. */
  lemma StepNumbersCount(kek: bytes, plaintext: bytes)
    requires |kek| == 32 && |plaintext| == 16
    ensures Wrap(IDENTITY, kek, plaintext) == Ok([0xa6, 0xa6, 0xa6, 0xa6, 0xa6, 0xa6, 0xa6, 0xaa] + plaintext)
  {
    hide Forward, Halves, Flatten;
    SixRounds(kek, Halves(plaintext));
    FlattenHalves(plaintext);
  }
}

/** AES key wrap (sections 2.2.1 and 2.2.2 of RFC 3394) over an arbitrary block cipher.

    The cipher is a pair of functions on two 64-bit halves under a key; `Bijective` says that
    the two functions undo each other, which is all the wrap needs of AES-256. */
module AesKeyWrap {
  import opened Bytes
  import opened Wrappers

  type Half = b: bytes | |b| == 8 witness [0, 0, 0, 0, 0, 0, 0, 0]

  datatype Cipher = Cipher(enc: (bytes, Half, Half) -> (Half, Half), dec: (bytes, Half, Half) -> (Half, Half))

  /** Under key `k`, each direction undoes the other at the block `(a, b)`. */
  predicate Inverse(c: Cipher, k: bytes, a: Half, b: Half) {
    && c.dec(k, c.enc(k, a, b).0, c.enc(k, a, b).1) == (a, b)
    && c.enc(k, c.dec(k, a, b).0, c.dec(k, a, b).1) == (a, b)
  }

  ghost predicate Bijective(c: Cipher) {
    forall k: bytes, a: Half, b: Half :: Inverse(c, k, a, b)
  }

  datatype KeyWrapError = BadLength | BadKek | IntegrityCheckFailed

  const KEK_BYTES: nat := 32
  const INITIAL_VALUE: Half := [0xa6, 0xa6, 0xa6, 0xa6, 0xa6, 0xa6, 0xa6, 0xa6]

  // ------------------------------------------------------------------ the integrity register

  function XorCounter(a: Half, counter: nat): Half {
    var t := BigEndian(counter, 8);
    seq(8, i requires 0 <= i < 8 => Xor(a[i], t[i]))
  }

  lemma XorCounterUndo(a: Half, counter: nat)
    ensures XorCounter(XorCounter(a, counter), counter) == a
  {
  }

  method XorCounterInPlace(a: array<byte>, counter: nat)
    requires a.Length == 8
    modifies a
    ensures a[..] == XorCounter(old(a[..]), counter)
  {
    var t := BigEndian(counter, 8);
    for i := 0 to 8
      invariant forall k :: 0 <= k < i ==> a[k] == Xor(old(a[k]), t[k])
      invariant forall k :: i <= k < 8 ==> a[k] == old(a[k])
    {
      a[i] := Xor(a[i], t[i]);
    }
  }

  // ------------------------------------------------------------------ one step and many steps

  /** The register `A` and the blocks `R`. */
  datatype Registers = Registers(a: Half, r: seq<Half>)

  /** Step `i` of round `j`: block `i` is enciphered with the register, and the step number
      `n * j + i + 1` is mixed into the register. */
  function StepForward(c: Cipher, kek: bytes, j: nat, i: nat, s: Registers): (s': Registers)
    requires i < |s.r|
    ensures |s'.r| == |s.r|
  {
    var (hi, lo) := c.enc(kek, s.a, s.r[i]);
    Registers(XorCounter(hi, |s.r| * j + i + 1), s.r[i := lo])
  }

  function StepBackward(c: Cipher, kek: bytes, j: nat, i: nat, s: Registers): (s': Registers)
    requires i < |s.r|
    ensures |s'.r| == |s.r|
  {
    var (hi, lo) := c.dec(kek, XorCounter(s.a, |s.r| * j + i + 1), s.r[i]);
    Registers(hi, s.r[i := lo])
  }

  /** The first `i` steps of round `j`. */
  function RoundForward(c: Cipher, kek: bytes, j: nat, i: nat, s: Registers): (s': Registers)
    requires i <= |s.r|
    ensures |s'.r| == |s.r|
  {
    if i == 0 then s else StepForward(c, kek, j, i - 1, RoundForward(c, kek, j, i - 1, s))
  }

  /** The first `i` steps of round `j` undone, the last one first. */
  function RoundBackward(c: Cipher, kek: bytes, j: nat, i: nat, s: Registers): (s': Registers)
    requires i <= |s.r|
    ensures |s'.r| == |s.r|
  {
    if i == 0 then s else RoundBackward(c, kek, j, i - 1, StepBackward(c, kek, j, i - 1, s))
  }

  /** The first `j` rounds. */
  function Forward(c: Cipher, kek: bytes, j: nat, s: Registers): (s': Registers)
    ensures |s'.r| == |s.r|
  {
    if j == 0 then s else RoundForward(c, kek, j - 1, |s.r|, Forward(c, kek, j - 1, s))
  }

  /** The first `j` rounds undone, the last one first. */
  function Backward(c: Cipher, kek: bytes, j: nat, s: Registers): (s': Registers)
    ensures |s'.r| == |s.r|
  {
    if j == 0 then s else Backward(c, kek, j - 1, RoundBackward(c, kek, j - 1, |s.r|, s))
  }

  lemma StepUndo(c: Cipher, kek: bytes, j: nat, i: nat, s: Registers)
    requires Bijective(c) && i < |s.r|
    ensures StepBackward(c, kek, j, i, StepForward(c, kek, j, i, s)) == s
    ensures StepForward(c, kek, j, i, StepBackward(c, kek, j, i, s)) == s
  {
    var counter := |s.r| * j + i + 1;
    XorCounterUndo(c.enc(kek, s.a, s.r[i]).0, counter);
    XorCounterUndo(s.a, counter);
    var back := StepBackward(c, kek, j, i, s);
    assert Inverse(c, kek, s.a, s.r[i]) && Inverse(c, kek, XorCounter(s.a, counter), s.r[i]);
    assert c.enc(kek, back.a, back.r[i]) == (XorCounter(s.a, counter), s.r[i]);
    assert s.r[i := c.enc(kek, s.a, s.r[i]).1][i := s.r[i]] == s.r;
    assert back.r[i := s.r[i]] == s.r;
  }

  lemma {:induction false} RoundUndo(c: Cipher, kek: bytes, j: nat, i: nat, s: Registers)
    requires Bijective(c) && i <= |s.r|
    ensures RoundBackward(c, kek, j, i, RoundForward(c, kek, j, i, s)) == s
    ensures RoundForward(c, kek, j, i, RoundBackward(c, kek, j, i, s)) == s
    decreases i
  {
    if i > 0 {
      StepUndo(c, kek, j, i - 1, RoundForward(c, kek, j, i - 1, s));
      RoundUndo(c, kek, j, i - 1, s);
      RoundUndo(c, kek, j, i - 1, StepBackward(c, kek, j, i - 1, s));
      StepUndo(c, kek, j, i - 1, s);
    }
  }

  lemma {:induction false} BackwardUndoesForward(c: Cipher, kek: bytes, j: nat, s: Registers)
    requires Bijective(c)
    ensures Backward(c, kek, j, Forward(c, kek, j, s)) == s
  {
    if j > 0 {
      RoundUndo(c, kek, j - 1, |s.r|, Forward(c, kek, j - 1, s));
      BackwardUndoesForward(c, kek, j - 1, s);
    }
  }

  lemma {:induction false} ForwardUndoesBackward(c: Cipher, kek: bytes, j: nat, s: Registers)
    requires Bijective(c)
    ensures Forward(c, kek, j, Backward(c, kek, j, s)) == s
  {
    if j > 0 {
      ForwardUndoesBackward(c, kek, j - 1, RoundBackward(c, kek, j - 1, |s.r|, s));
      RoundUndo(c, kek, j - 1, |s.r|, s);
    }
  }

  // ------------------------------------------------------------------ blocks and byte strings

  function Halves(b: bytes): (r: seq<Half>)
    requires |b| % 8 == 0
    ensures |r| == |b| / 8
  {
    if b == [] then [] else [b[..8]] + Halves(b[8..])
  }

  function Flatten(r: seq<Half>): (b: bytes)
    ensures |b| == 8 * |r|
  {
    if r == [] then [] else r[0] + Flatten(r[1..])
  }

  lemma {:induction false} FlattenHalves(b: bytes)
    requires |b| % 8 == 0
    ensures Flatten(Halves(b)) == b
  {
    if b != [] {
      FlattenHalves(b[8..]);
      assert Halves(b)[1..] == Halves(b[8..]);
    }
  }

  lemma {:induction false} HalvesFlatten(r: seq<Half>)
    ensures Halves(Flatten(r)) == r
  {
    if r != [] {
      HalvesFlatten(r[1..]);
      assert Flatten(r)[8..] == Flatten(r[1..]);
      assert r == [r[0]] + r[1..];
    }
  }

  // ------------------------------------------------------------------ wrap and unwrap

  function Wrap(c: Cipher, kek: bytes, plaintext: bytes): Result<bytes, KeyWrapError> {
    if |plaintext| < 16 || |plaintext| % 8 != 0 then Err(BadLength)
    else if |kek| != KEK_BYTES then Err(BadKek)
    else
      var s := Forward(c, kek, 6, Registers(INITIAL_VALUE, Halves(plaintext)));
      Ok(s.a + Flatten(s.r))
  }

  function Unwrap(c: Cipher, kek: bytes, wrapped: bytes): Result<bytes, KeyWrapError> {
    if |wrapped| < 24 || |wrapped| % 8 != 0 then Err(BadLength)
    else if |kek| != KEK_BYTES then Err(BadKek)
    else
      var s := Backward(c, kek, 6, Registers(wrapped[..8], Halves(wrapped[8..])));
      if s.a != INITIAL_VALUE then Err(IntegrityCheckFailed) else Ok(Flatten(s.r))
  }

  lemma UnwrapOfRegisters(c: Cipher, kek: bytes, s: Registers)
    requires |s.r| >= 2 && |kek| == KEK_BYTES
    ensures var last := Backward(c, kek, 6, s);
            Unwrap(c, kek, s.a + Flatten(s.r))
            == if last.a != INITIAL_VALUE then Err(IntegrityCheckFailed) else Ok(Flatten(last.r))
  {
    var w := s.a + Flatten(s.r);
    assert w[..8] == s.a && w[8..] == Flatten(s.r);
    HalvesFlatten(s.r);
  }

  lemma WrapOfRegisters(c: Cipher, kek: bytes, r: seq<Half>)
    requires |r| >= 2 && |kek| == KEK_BYTES
    ensures var last := Forward(c, kek, 6, Registers(INITIAL_VALUE, r));
            Wrap(c, kek, Flatten(r)) == Ok(last.a + Flatten(last.r))
  {
    HalvesFlatten(r);
  }

  /** Every aligned key of at least 16 bytes wraps, and nothing else does; the wrapped key is eight bytes
      longer and unwrapping it returns the key. */
  lemma UnwrapWrap(c: Cipher, kek: bytes, plaintext: bytes)
    requires Bijective(c)
    ensures Wrap(c, kek, plaintext).Ok? <==> |plaintext| >= 16 && |plaintext| % 8 == 0 && |kek| == 32
    ensures Wrap(c, kek, plaintext).Ok? ==> |Wrap(c, kek, plaintext).value| == |plaintext| + 8
    ensures Wrap(c, kek, plaintext).Ok? ==> Unwrap(c, kek, Wrap(c, kek, plaintext).value) == Ok(plaintext)
  {
    if Wrap(c, kek, plaintext).Err? {
      return;
    }
    var start := Registers(INITIAL_VALUE, Halves(plaintext));
    FlattenHalves(plaintext);
    WrapOfRegisters(c, kek, start.r);
    UnwrapOfRegisters(c, kek, Forward(c, kek, 6, start));
    BackwardUndoesForward(c, kek, 6, start);
  }

  /** Unwrapping accepts nothing but the exact output of wrapping the key it returns. */
  lemma WrapUnwrap(c: Cipher, kek: bytes, wrapped: bytes)
    requires Bijective(c)
    requires Unwrap(c, kek, wrapped).Ok?
    ensures Wrap(c, kek, Unwrap(c, kek, wrapped).value) == Ok(wrapped)
  {
    var start := Registers(wrapped[..8], Halves(wrapped[8..]));
    FlattenHalves(wrapped[8..]);
    assert wrapped == wrapped[..8] + wrapped[8..];
    UnwrapOfRegisters(c, kek, start);
    WrapOfRegisters(c, kek, Backward(c, kek, 6, start).r);
    ForwardUndoesBackward(c, kek, 6, start);
  }

  /** The accepted wrapped keys are exactly the outputs of wrap under the same key. */
  lemma UnwrapAcceptsExactlyWraps(c: Cipher, kek: bytes, wrapped: bytes)
    requires Bijective(c)
    ensures Unwrap(c, kek, wrapped).Ok? <==> exists p: bytes :: Wrap(c, kek, p) == Ok(wrapped)
  {
    if Unwrap(c, kek, wrapped).Ok? {
      WrapUnwrap(c, kek, wrapped);
    }
    if exists p: bytes :: Wrap(c, kek, p) == Ok(wrapped) {
      var p: bytes :| Wrap(c, kek, p) == Ok(wrapped);
      UnwrapWrap(c, kek, p);
    }
  }

  // ------------------------------------------------------------------ the nested loops

  method CopyHalf(a: array<byte>, half: Half)
    requires a.Length == 8
    modifies a
    ensures a[..] == half
  {
    for i := 0 to 8
      invariant forall k :: 0 <= k < i ==> a[k] == half[k]
    {
      a[i] := half[i];
    }
  }

  /** One round of the wrap, overwriting the register and the blocks in place. */
  method WrapRound(c: Cipher, kek: bytes, j: nat, a: array<byte>, r: array<Half>)
    requires a.Length == 8
    modifies a, r
    ensures Registers(a[..], r[..]) == RoundForward(c, kek, j, r.Length, Registers(old(a[..]), old(r[..])))
  {
    hide XorCounter;
    ghost var start := Registers(a[..], r[..]);
    for i := 0 to r.Length
      invariant Registers(a[..], r[..]) == RoundForward(c, kek, j, i, start)
    {
      ghost var before := Registers(a[..], r[..]);
      var (hi, lo) := c.enc(kek, a[..], r[i]);
      CopyHalf(a, hi);
      XorCounterInPlace(a, r.Length * j + i + 1);
      r[i] := lo;
      assert r[..] == before.r[i := lo];
      assert Registers(a[..], r[..]) == StepForward(c, kek, j, i, before);
    }
  }

  /** One round of the unwrap: the same steps backwards. */
  method UnwrapRound(c: Cipher, kek: bytes, j: nat, a: array<byte>, r: array<Half>)
    requires a.Length == 8
    modifies a, r
    ensures Registers(a[..], r[..]) == RoundBackward(c, kek, j, r.Length, Registers(old(a[..]), old(r[..])))
  {
    hide XorCounter;
    ghost var last := RoundBackward(c, kek, j, r.Length, Registers(a[..], r[..]));
    for i := r.Length downto 0
      invariant RoundBackward(c, kek, j, i, Registers(a[..], r[..])) == last
    {
      ghost var before := Registers(a[..], r[..]);
      var masked := new byte[8](k requires 0 <= k < 8 reads a => a[k]);
      assert masked[..] == before.a;
      XorCounterInPlace(masked, r.Length * j + i + 1);
      var (hi, lo) := c.dec(kek, masked[..], r[i]);
      CopyHalf(a, hi);
      r[i] := lo;
      assert r[..] == before.r[i := lo];
      assert Registers(a[..], r[..]) == StepBackward(c, kek, j, i, before);
    }
  }

  method WrapKey(c: Cipher, kek: bytes, plaintext: bytes) returns (res: Result<bytes, KeyWrapError>)
    ensures res == Wrap(c, kek, plaintext)
  {
    if |plaintext| < 16 || |plaintext| % 8 != 0 {
      return Err(BadLength);
    }
    if |kek| != KEK_BYTES {
      return Err(BadKek);
    }
    var blocks := Halves(plaintext);
    var r := new Half[|blocks|](i requires 0 <= i < |blocks| => blocks[i]);
    var a := new byte[8](_ => 0xa6);
    assert r[..] == blocks && a[..] == INITIAL_VALUE;
    for j := 0 to 6
      invariant Registers(a[..], r[..]) == Forward(c, kek, j, Registers(INITIAL_VALUE, blocks))
    {
      WrapRound(c, kek, j, a, r);
    }
    return Ok(a[..] + Flatten(r[..]));
  }

  method UnwrapKey(c: Cipher, kek: bytes, wrapped: bytes) returns (res: Result<bytes, KeyWrapError>)
    ensures res == Unwrap(c, kek, wrapped)
  {
    if |wrapped| < 24 || |wrapped| % 8 != 0 {
      return Err(BadLength);
    }
    if |kek| != KEK_BYTES {
      return Err(BadKek);
    }
    var blocks := Halves(wrapped[8..]);
    var r := new Half[|blocks|](i requires 0 <= i < |blocks| => blocks[i]);
    var a := new byte[8](i requires 0 <= i < 8 => wrapped[i]);
    assert r[..] == blocks && a[..] == wrapped[..8];
    for j := 6 downto 0
      invariant Backward(c, kek, j, Registers(a[..], r[..])) == Backward(c, kek, 6, Registers(wrapped[..8], blocks))
    {
      UnwrapRound(c, kek, j, a, r);
    }
    if a[..] != INITIAL_VALUE {
      return Err(IntegrityCheckFailed);
    }
    return Ok(Flatten(r[..]));
  }
}

/** Sequence numbers of successive publications. */
module Sequence {
  import opened Wrappers
  import opened Text
  import opened DidDocument

  const NANOS_PER_SECOND: nat := 1_000_000_000

  /** A clock reading relative to the Unix epoch. */
  datatype RawInstant = Instant(secs: int, nanos: nat)

  type Instant = t: RawInstant | t.nanos < NANOS_PER_SECOND && t.secs < U64_LIMIT witness Instant(0, 0)

  function NextSequence(now: Instant, previous: Option<u64>): Result<u64, DhtError> {
    if now.secs < 0 then Err(TimeBeforeEpoch)
    else
      var ceiling: nat := now.secs + if now.nanos > 0 then 1 else 0;
      if ceiling >= U64_LIMIT then Err(SequenceOverflow)
      else
        match previous
        case None => Ok(ceiling)
        case Some(p) =>
          if p + 1 >= U64_LIMIT then Err(SequenceOverflow)
          else Ok(if ceiling >= p + 1 then ceiling else p + 1)
  }

  /** `n` seconds are not earlier than `now`. */
  predicate NotBefore(n: u64, now: Instant) {
    n * NANOS_PER_SECOND >= now.secs * NANOS_PER_SECOND + now.nanos
  }

  predicate Admissible(n: u64, now: Instant, previous: Option<u64>) {
    NotBefore(n, now) && (previous.Some? ==> n > previous.value)
  }

  predicate IsLeastAdmissible(n: u64, now: Instant, previous: Option<u64>) {
    Admissible(n, now, previous) && forall m: u64 :: Admissible(m, now, previous) ==> n <= m
  }

  /** The next number is the least one that is neither before the clock nor at or below the previous
      number; the call fails exactly before the epoch or when no 64-bit number qualifies. */
  lemma NextSequenceIsLeast(now: Instant, previous: Option<u64>)
    ensures var r := NextSequence(now, previous);
            && (r.Ok? ==> IsLeastAdmissible(r.value, now, previous))
            && (r.Err? ==> now.secs < 0 || forall n: u64 :: !Admissible(n, now, previous))
            && (r == Err(TimeBeforeEpoch) <==> now.secs < 0)
  {
  }

  /** The numbers of a run of publications. A call that fails gives no number, and the next call goes on
      from the number before it. */
  function RunSequences(clocks: seq<Instant>, previous: Option<u64>): (ns: seq<Option<u64>>)
    ensures |ns| == |clocks|
    decreases clocks
  {
    if clocks == [] then []
    else
      match NextSequence(clocks[0], previous)
      case Err(_) => [None] + RunSequences(clocks[1..], previous)
      case Ok(n) => [Some(n)] + RunSequences(clocks[1..], Some(n))
  }

  /** The last number given, or the one the run started from. */
  function Latest(ns: seq<Option<u64>>, previous: Option<u64>): Option<u64> {
    if ns == [] then previous
    else if ns[|ns| - 1].Some? then ns[|ns| - 1]
    else Latest(ns[..|ns| - 1], previous)
  }

  lemma {:induction false} LatestCons(n: Option<u64>, ns: seq<Option<u64>>, previous: Option<u64>)
    ensures Latest([n] + ns, previous) == Latest(ns, if n.Some? then n else previous)
    decreases ns
  {
    var all := [n] + ns;
    if ns == [] {
      assert all == [n] && all[..0] == [];
    } else {
      assert all[..|all| - 1] == [n] + ns[..|ns| - 1];
      LatestCons(n, ns[..|ns| - 1], previous);
    }
  }

  /** Whatever the clock does and whichever calls fail, the numbers of a run strictly increase; each is the
      least one that is not before its clock and above the number given before it, and a call without a
      number had none to give. */
  lemma {:induction false} RunStrictlyIncreases(clocks: seq<Instant>, previous: Option<u64>)
    ensures var ns := RunSequences(clocks, previous);
            && (forall i, j :: 0 <= i < j < |ns| && ns[i].Some? && ns[j].Some? ==> ns[i].value < ns[j].value)
            && (forall i :: 0 <= i < |ns| && ns[i].Some? ==>
                  && IsLeastAdmissible(ns[i].value, clocks[i], Latest(ns[..i], previous))
                  && (previous.Some? ==> ns[i].value > previous.value))
            && (forall i :: 0 <= i < |ns| && ns[i].None? ==>
                  clocks[i].secs < 0 || forall n: u64 :: !Admissible(n, clocks[i], Latest(ns[..i], previous)))
    decreases clocks
  {
    if clocks != [] {
      NextSequenceIsLeast(clocks[0], previous);
      hide NextSequence, NotBefore, IsLeastAdmissible;
      var r := NextSequence(clocks[0], previous);
      var first := if r.Ok? then Some(r.value) else None;
      var next := if r.Ok? then Some(r.value) else previous;
      var ns, rest := RunSequences(clocks, previous), RunSequences(clocks[1..], next);
      RunStrictlyIncreases(clocks[1..], next);
      assert ns == [first] + rest;
      forall i | 0 <= i < |rest|
        ensures Latest(ns[..i + 1], previous) == Latest(rest[..i], next)
      {
        assert ns[..i + 1] == [first] + rest[..i];
        LatestCons(first, rest[..i], previous);
      }
      assert r.Ok? ==> Admissible(r.value, clocks[0], previous) by { LeastIsAdmissible(clocks[0], previous); }
      forall i | 0 <= i < |ns|
        ensures ns[i].Some? ==>
                  && IsLeastAdmissible(ns[i].value, clocks[i], Latest(ns[..i], previous))
                  && (previous.Some? ==> ns[i].value > previous.value)
        ensures ns[i].None? ==>
                  clocks[i].secs < 0 || forall n: u64 :: !Admissible(n, clocks[i], Latest(ns[..i], previous))
      {
        if i == 0 {
          assert ns[..0] == [];
        } else {
          assert ns[i] == rest[i - 1] && clocks[i] == clocks[1..][i - 1];
          assert Latest(ns[..(i - 1) + 1], previous) == Latest(rest[..i - 1], next);
        }
      }
    }
  }

  lemma LeastIsAdmissible(now: Instant, previous: Option<u64>)
    ensures NextSequence(now, previous).Ok? ==> Admissible(NextSequence(now, previous).value, now, previous)
  {
    NextSequenceIsLeast(now, previous);
  }
}

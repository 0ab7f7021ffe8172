/**
 * The probe side of the attacks: the order in which the 256 candidate values
 * are timed, the hit rule, and what the hit counts hold after a sweep and
 * after a number of rounds.
 *
 * A timer reading is abstracted as a latency: `lat(i)` is the cycle count
 * measured for the i-th timed read of a sweep, and `lat(r, i)` that of round r.
 */
module Probe {
  import opened Bits
  import opened Aggregate

  const RESULT_ARRAY_SIZE: nat := 256
  const ARRAY_SIZE_FACTOR: nat := RESULT_ARRAY_SIZE
  const MIXER_A: nat := 65
  const MIXER_B: nat := 1

  /** The candidate timed at step i of a sweep. */
  function Mix(i: nat): (m: nat)
    ensures m < ARRAY_SIZE_FACTOR
  {
    And(i * MIXER_A + MIXER_B, ARRAY_SIZE_FACTOR - 1)
  }

  /** The mask keeps the low eight bits. */
  lemma MixValue(i: nat)
    ensures Mix(i) == (i * MIXER_A + MIXER_B) % ARRAY_SIZE_FACTOR
  {
    Pow2Values();
    AndLowMask(i * MIXER_A + MIXER_B, 8);
  }

  /** The step at which candidate v is timed: 193 is the inverse of 65 modulo 256. */
  function Unmix(v: nat): (i: nat)
    ensures i < ARRAY_SIZE_FACTOR
  {
    (v + 255) * 193 % 256
  }

  lemma UnmixMix(i: nat)
    requires i < ARRAY_SIZE_FACTOR
    ensures Unmix(Mix(i)) == i
  {
    MixValue(i);
    var q := (i * 65 + 1) / 256;
    var m := Mix(i);
    assert i * 65 + 1 == 256 * q + m;
    assert (m + 255) * 193 == i + 256 * (49 * i + 193 * (1 - q));
    ModUnique((m + 255) * 193, 256, 49 * i + 193 * (1 - q), i);
  }

  lemma MixUnmix(v: nat)
    requires v < ARRAY_SIZE_FACTOR
    ensures Mix(Unmix(v)) == v
  {
    var u := Unmix(v);
    var q := (v + 255) * 193 / 256;
    assert (v + 255) * 193 == 256 * q + u;
    MixValue(u);
    assert u * 65 + 1 == v + 256 * (1 + 49 * (v + 255) - 65 * q);
    ModUnique(u * 65 + 1, 256, 1 + 49 * (v + 255) - 65 * q, v);
  }

  /**
   * The mixer is a permutation of the candidates: distinct steps time distinct
   * candidates, and every candidate is timed at some step of a sweep.
   */
  lemma MixPermutation()
    ensures forall i, j :: 0 <= i < j < ARRAY_SIZE_FACTOR ==> Mix(i) != Mix(j)
    ensures forall v :: 0 <= v < ARRAY_SIZE_FACTOR ==> 0 <= Unmix(v) < ARRAY_SIZE_FACTOR && Mix(Unmix(v)) == v
  {
    forall i, j | 0 <= i < j < ARRAY_SIZE_FACTOR
      ensures Mix(i) != Mix(j)
    {
      UnmixMix(i);
      UnmixMix(j);
    }
    forall v | 0 <= v < ARRAY_SIZE_FACTOR
      ensures Mix(Unmix(v)) == v
    {
      MixUnmix(v);
    }
  }

  /** Step i times candidate v exactly when v is timed at step i. */
  lemma MixIff(i: nat, v: nat)
    requires i < ARRAY_SIZE_FACTOR && v < ARRAY_SIZE_FACTOR
    ensures Mix(i) == v <==> Unmix(v) == i
  {
    UnmixMix(i);
    MixUnmix(v);
  }

  // ---------------------------------------------------------------------------
  // One sweep

  /**
   * The counts after one sweep: a candidate gains one exactly when the read
   * timed for it was faster than the threshold and it is not the excluded
   * value (pass an out-of-range value to exclude nothing).
   */
  function Swept(counts: seq<nat>, lat: nat -> nat, threshold: nat, excluded: int): (r: seq<nat>)
    requires |counts| == RESULT_ARRAY_SIZE
    ensures |r| == RESULT_ARRAY_SIZE
  {
    seq(RESULT_ARRAY_SIZE, v requires 0 <= v < RESULT_ARRAY_SIZE =>
      counts[v] + (if lat(Unmix(v)) < threshold && v != excluded then 1 else 0))
  }

  // ---------------------------------------------------------------------------
  // Rounds

  /**
   * The value left out of the count in round r: excluded[r], and nothing (an
   * out-of-range value) in a round past the end of excluded.
   */
  function ExcludedAt(excluded: seq<int>, r: nat): (v: int)
  {
    if r < |excluded| then excluded[r] else -1
  }

  /** The number of rounds r < rounds in which candidate v was counted. */
  function HitRounds(rounds: nat, lat: (nat, nat) -> nat, threshold: nat, excluded: seq<int>, v: nat): (n: nat)
    ensures n <= rounds
  {
    if rounds == 0 then 0
    else HitRounds(rounds - 1, lat, threshold, excluded, v)
         + (if lat(rounds - 1, Unmix(v)) < threshold && v != ExcludedAt(excluded, rounds - 1) then 1 else 0)
  }

  function Zeros(n: nat): (z: seq<nat>)
    ensures |z| == n && forall k :: 0 <= k < n ==> z[k] == 0
  {
    seq(n, k => 0)
  }

  /** The latencies of round r, as a function of the step. */
  function RoundLatency(lat: (nat, nat) -> nat, r: nat): (f: nat -> nat)
  {
    (i: nat) => lat(r, i)
  }

  /**
   * The counts after the given number of rounds, starting from zero: each
   * candidate holds the number of rounds it was counted in.
   */
  function Tally(rounds: nat, lat: (nat, nat) -> nat, threshold: nat, excluded: seq<int>): (t: seq<nat>)
    ensures |t| == RESULT_ARRAY_SIZE
  {
    seq(RESULT_ARRAY_SIZE, v requires 0 <= v < RESULT_ARRAY_SIZE => HitRounds(rounds, lat, threshold, excluded, v))
  }

  /** Before any round every count is zero. */
  lemma TallyStart(lat: (nat, nat) -> nat, threshold: nat, excluded: seq<int>)
    ensures Tally(0, lat, threshold, excluded) == Zeros(RESULT_ARRAY_SIZE)
  {
    assert forall v :: 0 <= v < RESULT_ARRAY_SIZE ==> Tally(0, lat, threshold, excluded)[v] == 0;
  }

  /** One more round is one more sweep over the counts so far. */
  lemma TallyNext(rounds: nat, lat: (nat, nat) -> nat, threshold: nat, excluded: seq<int>)
    ensures Tally(rounds + 1, lat, threshold, excluded)
         == Swept(Tally(rounds, lat, threshold, excluded), RoundLatency(lat, rounds), threshold, ExcludedAt(excluded, rounds))
  {
    var t := Tally(rounds, lat, threshold, excluded);
    var u := Swept(t, RoundLatency(lat, rounds), threshold, ExcludedAt(excluded, rounds));
    forall v | 0 <= v < RESULT_ARRAY_SIZE
      ensures Tally(rounds + 1, lat, threshold, excluded)[v] == u[v]
    {
      assert u[v] == t[v] + (if RoundLatency(lat, rounds)(Unmix(v)) < threshold && v != ExcludedAt(excluded, rounds) then 1 else 0);
    }
  }

  /** No count exceeds the number of rounds. */
  lemma TallyBound(rounds: nat, lat: (nat, nat) -> nat, threshold: nat, excluded: seq<int>)
    ensures forall v :: 0 <= v < RESULT_ARRAY_SIZE ==> Tally(rounds, lat, threshold, excluded)[v] <= rounds
  {
  }

  /** A value excluded in every round is never counted. */
  lemma {:induction false} ExcludedNeverCounted(rounds: nat, lat: (nat, nat) -> nat, threshold: nat, excluded: seq<int>, v: nat)
    requires forall r :: 0 <= r < rounds ==> ExcludedAt(excluded, r) == v
    ensures HitRounds(rounds, lat, threshold, excluded, v) == 0
  {
    if rounds > 0 {
      ExcludedNeverCounted(rounds - 1, lat, threshold, excluded, v);
    }
  }

  /** A candidate counted in every round reaches the number of rounds. */
  lemma {:induction false} AlwaysHitCounted(rounds: nat, lat: (nat, nat) -> nat, threshold: nat, excluded: seq<int>, v: nat)
    requires forall r :: 0 <= r < rounds ==> lat(r, Unmix(v)) < threshold && ExcludedAt(excluded, r) != v
    ensures HitRounds(rounds, lat, threshold, excluded, v) == rounds
  {
    if rounds > 0 {
      AlwaysHitCounted(rounds - 1, lat, threshold, excluded, v);
    }
  }

  /**
   * If candidate s is counted in every one of a positive number of rounds and
   * every other candidate in fewer, the aggregation reports s with that count.
   */
  lemma ConsistentHitWins(rounds: nat, lat: (nat, nat) -> nat, threshold: nat, excluded: seq<int>, s: nat)
    requires 0 < rounds && s < RESULT_ARRAY_SIZE
    requires forall r :: 0 <= r < rounds ==> lat(r, Unmix(s)) < threshold && ExcludedAt(excluded, r) != s
    requires forall v :: 0 <= v < RESULT_ARRAY_SIZE && v != s ==> HitRounds(rounds, lat, threshold, excluded, v) < rounds
    ensures Top(Tally(rounds, lat, threshold, excluded)) == rounds
    ensures Leader(Tally(rounds, lat, threshold, excluded)) == s
  {
    var t := Tally(rounds, lat, threshold, excluded);
    AlwaysHitCounted(rounds, lat, threshold, excluded, s);
    assert t[s] == rounds;
    MaxExceptUnique(t, -1, rounds);
    FirstIndexUnique(t, rounds, -1, s);
  }
}

/**
 * The cache-timing attack driver for the RSD core: its globals, the probe
 * sweep, the top-one report and the per-offset loop of the main program.
 *
 * The speculative gadgets are calls into code outside the model; they are
 * recorded, in order, in the ghost trace `calls` and change nothing else the
 * model holds. Timer readings are the latency input `lat(len, round, i)`:
 * the cycle difference measured for the i-th read of round `round` of offset
 * `len`. The characters written to the output port are returned as the pairs
 * (guessed value, hit count), one per offset.
 */
module RsdAttack {
  import opened Bits
  import opened Cache
  import opened Aggregate
  import opened Probe

  const ATTACK_ROUNDS: nat := 9
  const CACHE_HIT_THRESHOLD: nat := 37
  const SECRET_LENGTH: nat := 5
  const ARRAY_STRIDE: nat := L1_DCACHE_BLOCK_BYTES
  const PROBE_BYTES: nat := ARRAY_SIZE_FACTOR * ARRAY_STRIDE

  /** A call into code outside the model. */
  datatype Call =
    | Flush(memAddr: u32, memSize: u32)
    | VictimInit(targetIdx: u32)
    | Victim(n: nat, targetIdx: u32)

  /** The calls one attack round makes: flush the probe array, then the two gadgets. */
  function RoundCalls(probeAddr: u32, len: nat, attackIdx: u32): (r: seq<Call>)
  {
    if len < SECRET_LENGTH
    then [Flush(probeAddr, PROBE_BYTES), VictimInit(attackIdx), Victim(len, attackIdx)]
    else [Flush(probeAddr, PROBE_BYTES), VictimInit(attackIdx)]
  }

  /** The calls of `rounds` attack rounds on one offset. */
  function OffsetCalls(rounds: nat, probeAddr: u32, len: nat, attackIdx: u32): (c: seq<Call>)
  {
    if rounds == 0 then []
    else OffsetCalls(rounds - 1, probeAddr, len, attackIdx) + RoundCalls(probeAddr, len, attackIdx)
  }

  /** The attack index of offset n: the starting index advanced n times, with 32-bit wrap-around. */
  function IndexAfter(attackIdx0: u32, n: nat): (r: u32)
  {
    if n == 0 then attackIdx0 else Add32(IndexAfter(attackIdx0, n - 1), 1)
  }

  /** The index after n steps is the starting index plus n, wrapped to 32 bits. */
  lemma {:induction false} IndexAfterValue(attackIdx0: u32, n: nat)
    ensures IndexAfter(attackIdx0, n) == (attackIdx0 + n) % TWO32
  {
    if n > 0 {
      IndexAfterValue(attackIdx0, n - 1);
      var q := (attackIdx0 + n - 1) / TWO32;
      assert attackIdx0 + n == TWO32 * q + ((attackIdx0 + n - 1) % TWO32 + 1);
      ModAddMultiple((attackIdx0 + n - 1) % TWO32 + 1, TWO32, q);
    }
  }

  /** The calls of the first `n` offsets, starting from attack index attackIdx0. */
  function MainCalls(n: nat, probeAddr: u32, attackIdx0: u32): (r: seq<Call>)
  {
    if n == 0 then []
    else MainCalls(n - 1, probeAddr, attackIdx0)
         + OffsetCalls(ATTACK_ROUNDS, probeAddr, n - 1, IndexAfter(attackIdx0, n - 1))
  }

  /**
   * Every round on an offset below SECRET_LENGTH makes three calls: the flush,
   * the set-up gadget and exactly the victim gadget numbered by the offset,
   * all at that offset's attack index.
   */
  lemma {:induction false} OffsetCallsShape(rounds: nat, probeAddr: u32, len: nat, attackIdx: u32)
    requires len < SECRET_LENGTH
    ensures |OffsetCalls(rounds, probeAddr, len, attackIdx)| == 3 * rounds
    ensures forall k :: 0 <= k < 3 * rounds ==>
              OffsetCalls(rounds, probeAddr, len, attackIdx)[k]
              == [Flush(probeAddr, PROBE_BYTES), VictimInit(attackIdx), Victim(len, attackIdx)][k % 3]
  {
    if rounds > 0 {
      OffsetCallsShape(rounds - 1, probeAddr, len, attackIdx);
      var prev := OffsetCalls(rounds - 1, probeAddr, len, attackIdx);
      var all := OffsetCalls(rounds, probeAddr, len, attackIdx);
      forall k | 3 * (rounds - 1) <= k < 3 * rounds
        ensures all[k] == [Flush(probeAddr, PROBE_BYTES), VictimInit(attackIdx), Victim(len, attackIdx)][k % 3]
      {
        assert all[k] == RoundCalls(probeAddr, len, attackIdx)[k - 3 * (rounds - 1)];
      }
    }
  }

  /** The addresses the eviction routine loads in one attack round: those of the probe-array flush. */
  function RoundLoads(probeAddr: u32, dummyMem: u32): (s: seq<u32>)
    ensures |s| == L1_DCACHE_WAYS * ARRAY_SIZE_FACTOR
  {
    EvictionSchedule(probeAddr, PROBE_BYTES, dummyMem)
  }

  /** The byte the eviction routine reads last when it flushes the probe array. */
  function ProbeJunk(probeAddr: u32, dummyMem: u32, memory: u32 -> u8): (r: u8)
  {
    var s := RoundLoads(probeAddr, dummyMem);
    memory(s[|s| - 1])
  }

  /** No candidate is excluded from the count in this attack. */
  const NoExclusion: seq<int> := []

  /** The latencies of offset len, as a function of round and step. */
  function OffsetLatency(lat: (nat, nat, nat) -> nat, len: nat): (nat, nat) -> nat
  {
    (r: nat, i: nat) => lat(len, r, i)
  }

  /** The counts of offset len once all its rounds have run. */
  function OffsetTally(lat: (nat, nat, nat) -> nat, len: nat): (t: seq<nat>)
    ensures |t| == RESULT_ARRAY_SIZE
  {
    Tally(ATTACK_ROUNDS, OffsetLatency(lat, len), CACHE_HIT_THRESHOLD, NoExclusion)
  }

  /** What is shown for a count table: the lowest index of the top count and that count, or (0, 0). */
  function Shown(t: seq<nat>): (nat, nat)
  {
    (if Top(t) > 0 then Leader(t) else 0, Top(t))
  }

  /** Every count is at most the number of rounds, so the byte-wide value slot loses nothing. */
  lemma OffsetTallyFits(lat: (nat, nat, nat) -> nat, len: nat)
    ensures forall v :: 0 <= v < RESULT_ARRAY_SIZE ==> OffsetTally(lat, len)[v] <= ATTACK_ROUNDS
  {
    TallyBound(ATTACK_ROUNDS, OffsetLatency(lat, len), CACHE_HIT_THRESHOLD, NoExclusion);
  }

  /**
   * The bytes from output[0] on that one index store of resultOutput writes
   * at code.c:234, where the two-byte output is passed as the `uint32_t*`
   * index slot: the index as four little-endian bytes.
   */
  function IndexStoreBytes(idx: u32): (b: seq<nat>)
    ensures |b| == 4
  {
    [idx % 256, idx / 256 % 256, idx / 65536 % 256, idx / 16777216 % 256]
  }

  /**
   * hitArray[0] after one value store of resultOutput at code.c:234, where
   * the 32-bit hitArray is passed as the `uint8_t*` value slot: only its low
   * byte is replaced.
   */
  function ValueStoreWord(hit0: u32, val: u8): (r: nat)
  {
    hit0 / 256 * 256 + val
  }

  /**
   * With the slots swapped, an index below 256 still reaches output[0] and the
   * value reaches the low byte of hitArray[0]; but output[1] is zeroed, two
   * bytes past output are written, and hitArray[0] keeps its upper bytes, so
   * it holds the value only when those were zero.
   */
  lemma SwappedSlotStores(idx: u32, val: u8, hit0: u32)
    requires idx < 256
    ensures IndexStoreBytes(idx) == [idx, 0, 0, 0]
    ensures ValueStoreWord(hit0, val) % 256 == val && ValueStoreWord(hit0, val) / 256 == hit0 / 256
    ensures ValueStoreWord(hit0, val) == val <==> hit0 < 256
  {
    var q := hit0 / 256;
    assert ValueStoreWord(hit0, val) == 256 * q + val;
    ModAddMultiple(val, 256, q);
  }

  /**
   * A table counting byte 65 in every round and nothing else, entered with
   * hitArray[0] == 300: the report is (65, ATTACK_ROUNDS), but the index store
   * writes the four bytes 65, 0, 0, 0 from output[0] on, and hitArray[0] ends
   * at 256 + ATTACK_ROUNDS.
   */
  lemma SwappedSlotsExample()
    ensures var t := Zeros(RESULT_ARRAY_SIZE)[65 := ATTACK_ROUNDS];
            && Shown(t) == (65, ATTACK_ROUNDS)
            && IndexStoreBytes(Shown(t).0) == [65, 0, 0, 0]
            && ValueStoreWord(300, Shown(t).1) == 256 + ATTACK_ROUNDS
  {
    var t := Zeros(RESULT_ARRAY_SIZE)[65 := ATTACK_ROUNDS];
    assert forall k :: 0 <= k < RESULT_ARRAY_SIZE && k != 65 ==> t[k] == 0;
    assert t[65] == ATTACK_ROUNDS;
    MaxExceptUnique(t, -1, ATTACK_ROUNDS);
    FirstIndexUnique(t, ATTACK_ROUNDS, -1, 65);
  }

  /** The globals of the program and the eviction routine it uses. */
  class Program {
    const guideArray: array<u8>
    const probeArray: array<u8>
    const results: array<nat>
    const output: array<nat>
    const hitArray: array<nat>
    /** The address of probeArray, as passed to the eviction routine. */
    const probeAddr: u32
    const engine: EvictionEngine
    var mixed_i: u32
    var dummy: u32
    ghost var calls: seq<Call>

    ghost predicate Valid()
    {
      && guideArray.Length == ARRAY_SIZE_FACTOR
      && probeArray.Length == PROBE_BYTES
      && results.Length == RESULT_ARRAY_SIZE
      && output.Length == 2 && hitArray.Length == 2
      && guideArray != probeArray
      && results != output && results != hitArray && output != hitArray
      && probeArray as object != results && probeArray as object != output && probeArray as object != hitArray
    }

    ghost predicate ProbeFilled()
      reads probeArray
    {
      forall k :: 0 <= k < probeArray.Length ==> probeArray[k] == 1
    }

    /** The globals as the C runtime sets them up: all zero. */
    constructor (probeAddr: u32, engine: EvictionEngine)
      ensures Valid()
      ensures this.probeAddr == probeAddr && this.engine == engine
      ensures fresh(guideArray) && fresh(probeArray) && fresh(results) && fresh(output) && fresh(hitArray)
      ensures mixed_i == 0 && dummy == 0 && calls == []
      ensures forall k :: 0 <= k < guideArray.Length ==> guideArray[k] == 0
      ensures forall k :: 0 <= k < probeArray.Length ==> probeArray[k] == 0
      ensures results[..] == Zeros(RESULT_ARRAY_SIZE)
      ensures output[..] == [0, 0] && hitArray[..] == [0, 0]
    {
      guideArray := new u8[ARRAY_SIZE_FACTOR](_ => 0);
      probeArray := new u8[PROBE_BYTES](_ => 0);
      results := new nat[RESULT_ARRAY_SIZE](_ => 0);
      output := new nat[2](_ => 0);
      hitArray := new nat[2](_ => 0);
      this.probeAddr := probeAddr;
      this.engine := engine;
      mixed_i := 0;
      dummy := 0;
      calls := [];
    }

    /** Fills guideArray and probeArray with ones. */
    method Setup()
      requires Valid()
      modifies guideArray, probeArray
      ensures forall k :: 0 <= k < guideArray.Length ==> guideArray[k] == 1
      ensures ProbeFilled()
    {
      var i := 0;
      while i < guideArray.Length
        invariant i <= guideArray.Length
        invariant forall k :: 0 <= k < i ==> guideArray[k] == 1
      {
        guideArray[i] := 1;
        i := i + 1;
      }
      i := 0;
      while i < probeArray.Length
        invariant i <= probeArray.Length
        invariant forall k :: 0 <= k < i ==> probeArray[k] == 1
        invariant forall k :: 0 <= k < guideArray.Length ==> guideArray[k] == 1
      {
        probeArray[i] := 1;
        i := i + 1;
      }
    }

    /** Zeroes the hit counts. */
    method ClearResults()
      requires Valid()
      modifies results
      ensures results[..] == Zeros(RESULT_ARRAY_SIZE)
    {
      var cIdx := 0;
      while cIdx < RESULT_ARRAY_SIZE
        invariant cIdx <= RESULT_ARRAY_SIZE
        invariant forall k :: 0 <= k < cIdx ==> results[k] == 0
      {
        results[cIdx] := 0;
        cIdx := cIdx + 1;
      }
    }

    /**
     * One probe sweep: times a read of each candidate's probe line in mixer
     * order and counts a hit for every read faster than the threshold.
     */
    method CacheAttack(lat: nat -> nat)
      requires Valid() && ProbeFilled()
      modifies results, this`mixed_i, this`dummy
      ensures results[..] == Swept(old(results[..]), lat, CACHE_HIT_THRESHOLD, -1)
      ensures dummy == old(dummy) % 2 && mixed_i == Mix(ARRAY_SIZE_FACTOR - 1)
    {
      ghost var before := results[..];
      var i: nat := 0;
      while i < ARRAY_SIZE_FACTOR
        invariant i <= ARRAY_SIZE_FACTOR
        invariant forall v :: 0 <= v < RESULT_ARRAY_SIZE ==>
                    results[v] == before[v] + (if Unmix(v) < i && lat(Unmix(v)) < CACHE_HIT_THRESHOLD then 1 else 0)
        invariant dummy == if i == 0 then old(dummy) else old(dummy) % 2
        invariant i > 0 ==> mixed_i == Mix(i - 1)
      {
        mixed_i := Mix(i);
        AndOne(dummy);
        dummy := And(dummy, probeArray[mixed_i * ARRAY_STRIDE]);
        var diff := lat(i);
        forall v | 0 <= v < RESULT_ARRAY_SIZE
          ensures Mix(i) == v <==> Unmix(v) == i
        {
          MixIff(i, v);
        }
        if diff < CACHE_HIT_THRESHOLD {
          results[mixed_i] := results[mixed_i] + 1;
        }
        i := i + 1;
      }
    }

    /**
     * One attack round: flush the probe array, run the set-up gadget and the
     * victim gadget of this offset, then sweep.
     */
    method AttackRound(len: nat, attackIdx: u32, lat: nat -> nat)
      requires Valid() && ProbeFilled()
      modifies results, this`mixed_i, this`dummy, this`calls, engine`flushJunk, engine`loads
      ensures results[..] == Swept(old(results[..]), lat, CACHE_HIT_THRESHOLD, -1)
      ensures calls == old(calls) + RoundCalls(probeAddr, len, attackIdx)
      ensures dummy == old(dummy) % 2 && mixed_i == Mix(ARRAY_SIZE_FACTOR - 1)
      ensures engine.loads == old(engine.loads) + RoundLoads(probeAddr, engine.dummyMem)
      ensures engine.flushJunk == ProbeJunk(probeAddr, engine.dummyMem, engine.memory)
    {
      engine.FlushCache(probeAddr, PROBE_BYTES);
      calls := calls + [Flush(probeAddr, PROBE_BYTES), VictimInit(attackIdx)];
      if len < SECRET_LENGTH {
        calls := calls + [Victim(len, attackIdx)];
      }
      CacheAttack(lat);
    }

    /** The attack rounds on one offset, from cleared counts (ATTACK_ROUNDS of them in Run). */
    method AttackRounds(rounds: nat, len: nat, attackIdx: u32, lat: (nat, nat) -> nat)
      requires Valid() && ProbeFilled()
      requires results[..] == Zeros(RESULT_ARRAY_SIZE)
      modifies results, this`mixed_i, this`dummy, this`calls, engine`flushJunk, engine`loads
      ensures results[..] == Tally(rounds, lat, CACHE_HIT_THRESHOLD, NoExclusion)
      ensures calls == old(calls) + OffsetCalls(rounds, probeAddr, len, attackIdx)
      ensures dummy == if rounds == 0 then old(dummy) else old(dummy) % 2
      ensures mixed_i == if rounds == 0 then old(mixed_i) else Mix(ARRAY_SIZE_FACTOR - 1)
      ensures engine.loads == old(engine.loads) + Repeat(RoundLoads(probeAddr, engine.dummyMem), rounds)
      ensures engine.flushJunk
              == if rounds == 0 then old(engine.flushJunk) else ProbeJunk(probeAddr, engine.dummyMem, engine.memory)
    {
      ghost var d0 := dummy;
      TallyStart(lat, CACHE_HIT_THRESHOLD, NoExclusion);
      var atkRound: nat := 0;
      while atkRound < rounds
        invariant atkRound <= rounds
        invariant results[..] == Tally(atkRound, lat, CACHE_HIT_THRESHOLD, NoExclusion)
        invariant calls == old(calls) + OffsetCalls(atkRound, probeAddr, len, attackIdx)
        invariant atkRound == 0 ==> dummy == d0
        invariant atkRound > 0 ==> dummy == d0 % 2
        invariant mixed_i == if atkRound == 0 then old(mixed_i) else Mix(ARRAY_SIZE_FACTOR - 1)
        invariant engine.loads == old(engine.loads) + Repeat(RoundLoads(probeAddr, engine.dummyMem), atkRound)
        invariant engine.flushJunk
                  == if atkRound == 0 then old(engine.flushJunk) else ProbeJunk(probeAddr, engine.dummyMem, engine.memory)
      {
        AttackRound(len, attackIdx, RoundLatency(lat, atkRound));
        AppendAssoc(old(engine.loads), Repeat(RoundLoads(probeAddr, engine.dummyMem), atkRound), RoundLoads(probeAddr, engine.dummyMem));
        TallyNext(atkRound, lat, CACHE_HIT_THRESHOLD, NoExclusion);
        ModTwoTwice(d0);
        atkRound := atkRound + 1;
      }
    }

    /**
     * One offset of the main program: cleared counts, the attack rounds, the
     * junk fold into results[0] and the top-one report. Returns what is shown.
     */
    method AttackOffset(len: nat, attackIdx: u32, lat: (nat, nat, nat) -> nat) returns (shownPair: (nat, nat))
      requires Valid() && ProbeFilled() && dummy == 0
      modifies results, output, hitArray
      modifies this`mixed_i, this`dummy, this`calls, engine`flushJunk, engine`loads
      ensures shownPair == Shown(OffsetTally(lat, len))
      ensures results[..] == OffsetTally(lat, len)
      ensures output[0] == shownPair.0 && output[1] == old(output[1])
      ensures hitArray[0] == shownPair.1 && hitArray[1] == old(hitArray[1])
      ensures calls == old(calls) + OffsetCalls(ATTACK_ROUNDS, probeAddr, len, attackIdx)
      ensures dummy == 0 && mixed_i == Mix(ARRAY_SIZE_FACTOR - 1)
      ensures engine.loads == old(engine.loads) + Repeat(RoundLoads(probeAddr, engine.dummyMem), ATTACK_ROUNDS)
      ensures engine.flushJunk == ProbeJunk(probeAddr, engine.dummyMem, engine.memory)
    {
      ClearResults();
      AttackRounds(ATTACK_ROUNDS, len, attackIdx, OffsetLatency(lat, len));
      assert dummy == 0;
      results[0] := Xor(results[0], dummy);
      ghost var t := OffsetTally(lat, len);
      assert results[..RESULT_ARRAY_SIZE] == t;
      assert forall k :: 0 <= k < |t| ==> t[k] < 256 by {
        OffsetTallyFits(lat, len);
      }
      ResultOutput(results, RESULT_ARRAY_SIZE, output, hitArray);
      shownPair := (output[0], hitArray[0]);
      assert output[1] == output[1..][0] && hitArray[1] == hitArray[1..][0];
    }

    /**
     * The state main reaches after `len` offsets from call trace c0 and load
     * trace l0: the guide and probe arrays as set up, dummy zero, the pairs
     * `shown` reported, the calls `done` and the loads of `len` offsets
     * appended, and, once an offset has run, its count table `last` in
     * results, its report in output[0] and hitArray[0], and mixed_i and the
     * junk byte as its final sweep and flush leave them.
     */
    ghost predicate RunProgress(len: nat, shown: seq<(nat, nat)>, done: seq<Call>, last: seq<nat>,
                                c0: seq<Call>, l0: seq<u32>)
      reads this, guideArray, probeArray, results, output, hitArray, engine
    {
      && Valid() && ProbeFilled() && dummy == 0
      && (forall k :: 0 <= k < guideArray.Length ==> guideArray[k] == 1)
      && len <= SECRET_LENGTH && |shown| == len
      && calls == c0 + done
      && engine.loads == l0 + Repeat(Repeat(RoundLoads(probeAddr, engine.dummyMem), ATTACK_ROUNDS), len)
      && (len > 0 ==>
            && mixed_i == Mix(ARRAY_SIZE_FACTOR - 1)
            && results[..] == last
            && output[0] == shown[len - 1].0 && hitArray[0] == shown[len - 1].1
            && engine.flushJunk == ProbeJunk(probeAddr, engine.dummyMem, engine.memory))
    }

    /**
     * One pass of the main loop: the attack on offset len, its report
     * appended to `shown`, and the attack index advanced by one.
     */
    method RunOffset(len: nat, attackIdx: u32, attackIdx0: u32, lat: (nat, nat, nat) -> nat, shown: seq<(nat, nat)>,
                     ghost done: seq<Call>, ghost last: seq<nat>, ghost c0: seq<Call>, ghost l0: seq<u32>)
      returns (next: u32, shown': seq<(nat, nat)>, ghost done': seq<Call>, ghost last': seq<nat>)
      requires len < SECRET_LENGTH && RunProgress(len, shown, done, last, c0, l0)
      requires forall k :: 0 <= k < len ==> shown[k] == Shown(OffsetTally(lat, k))
      requires done == MainCalls(len, probeAddr, attackIdx0) && attackIdx == IndexAfter(attackIdx0, len)
      modifies results, output, hitArray
      modifies this`mixed_i, this`dummy, this`calls, engine`flushJunk, engine`loads
      ensures RunProgress(len + 1, shown', done', last', c0, l0)
      ensures forall k :: 0 <= k < len + 1 ==> shown'[k] == Shown(OffsetTally(lat, k))
      ensures done' == MainCalls(len + 1, probeAddr, attackIdx0) && next == IndexAfter(attackIdx0, len + 1)
      ensures last' == OffsetTally(lat, len)
    {
      AppendAssoc(l0, Repeat(Repeat(RoundLoads(probeAddr, engine.dummyMem), ATTACK_ROUNDS), len), Repeat(RoundLoads(probeAddr, engine.dummyMem), ATTACK_ROUNDS));
      AppendAssoc(c0, done, OffsetCalls(ATTACK_ROUNDS, probeAddr, len, attackIdx));
      var pair := AttackOffset(len, attackIdx, lat);
      shown' := shown + [pair];
      done' := done + OffsetCalls(ATTACK_ROUNDS, probeAddr, len, attackIdx);
      last' := OffsetTally(lat, len);
      next := Add32(attackIdx, 1);
    }

    /** After the set-up, main's progress holds with nothing appended. */
    lemma RunStart(c0: seq<Call>)
      requires Valid() && ProbeFilled() && dummy == 0 && calls == c0
      requires forall k :: 0 <= k < guideArray.Length ==> guideArray[k] == 1
      ensures RunProgress(0, [], [], [], c0, engine.loads)
    {
    }

    /** After the last offset, main's progress gives the final state. */
    lemma RunEnd(shown: seq<(nat, nat)>, done: seq<Call>, last: seq<nat>, c0: seq<Call>, l0: seq<u32>)
      requires RunProgress(SECRET_LENGTH, shown, done, last, c0, l0)
      ensures |shown| == SECRET_LENGTH && calls == c0 + done
      ensures forall k :: 0 <= k < guideArray.Length ==> guideArray[k] == 1
      ensures ProbeFilled() && dummy == 0 && mixed_i == Mix(ARRAY_SIZE_FACTOR - 1)
      ensures results[..] == last
      ensures output[0] == shown[SECRET_LENGTH - 1].0 && hitArray[0] == shown[SECRET_LENGTH - 1].1
      ensures engine.loads == l0 + Repeat(Repeat(RoundLoads(probeAddr, engine.dummyMem), ATTACK_ROUNDS), SECRET_LENGTH)
      ensures engine.flushJunk == ProbeJunk(probeAddr, engine.dummyMem, engine.memory)
    {
    }

    /**
     * The offset loop of the main program, after the set-up: for each of the
     * SECRET_LENGTH offsets a cleared count table, ATTACK_ROUNDS rounds, the
     * junk fold into results[0], the top-one report and the next attack
     * index. Returns the value and hit count shown for each offset.
     */
    method AttackSecret(attackIdx0: u32, lat: (nat, nat, nat) -> nat) returns (shown: seq<(nat, nat)>)
      requires Valid() && ProbeFilled() && dummy == 0
      requires forall k :: 0 <= k < guideArray.Length ==> guideArray[k] == 1
      modifies results, output, hitArray
      modifies this`mixed_i, this`dummy, this`calls, engine`flushJunk, engine`loads
      ensures |shown| == SECRET_LENGTH
      ensures forall len :: 0 <= len < SECRET_LENGTH ==> shown[len] == Shown(OffsetTally(lat, len))
      ensures calls == old(calls) + MainCalls(SECRET_LENGTH, probeAddr, attackIdx0)
      ensures forall k :: 0 <= k < guideArray.Length ==> guideArray[k] == 1
      ensures ProbeFilled() && dummy == 0 && mixed_i == Mix(ARRAY_SIZE_FACTOR - 1)
      ensures results[..] == OffsetTally(lat, SECRET_LENGTH - 1)
      ensures output[0] == shown[SECRET_LENGTH - 1].0 && hitArray[0] == shown[SECRET_LENGTH - 1].1
      ensures engine.loads == old(engine.loads) + Repeat(Repeat(RoundLoads(probeAddr, engine.dummyMem), ATTACK_ROUNDS), SECRET_LENGTH)
      ensures engine.flushJunk == ProbeJunk(probeAddr, engine.dummyMem, engine.memory)
    {
      var attackIdx := attackIdx0;
      ghost var c0, l0 := calls, engine.loads;
      RunStart(c0);
      shown := [];
      ghost var done: seq<Call> := [];
      ghost var last: seq<nat> := [];
      var len: nat := 0;
      while len < SECRET_LENGTH
        invariant RunProgress(len, shown, done, last, c0, l0)
        invariant forall k :: 0 <= k < len ==> shown[k] == Shown(OffsetTally(lat, k))
        invariant done == MainCalls(len, probeAddr, attackIdx0) && attackIdx == IndexAfter(attackIdx0, len)
        invariant len > 0 ==> last == OffsetTally(lat, len - 1)
      {
        attackIdx, shown, done, last := RunOffset(len, attackIdx, attackIdx0, lat, shown, done, last, c0, l0);
        len := len + 1;
      }
      RunEnd(shown, done, last, c0, l0);
    }

    /**
     * The main program: the set-up that fills guideArray and probeArray with
     * ones, then the offset loop. Returns the value and hit count shown for
     * each offset.
     */
    method Run(attackIdx0: u32, lat: (nat, nat, nat) -> nat) returns (shown: seq<(nat, nat)>)
      requires Valid() && dummy == 0
      modifies guideArray, probeArray, results, output, hitArray
      modifies this`mixed_i, this`dummy, this`calls, engine`flushJunk, engine`loads
      ensures |shown| == SECRET_LENGTH
      ensures forall len :: 0 <= len < SECRET_LENGTH ==> shown[len] == Shown(OffsetTally(lat, len))
      ensures calls == old(calls) + MainCalls(SECRET_LENGTH, probeAddr, attackIdx0)
      ensures forall k :: 0 <= k < guideArray.Length ==> guideArray[k] == 1
      ensures ProbeFilled() && dummy == 0 && mixed_i == Mix(ARRAY_SIZE_FACTOR - 1)
      ensures results[..] == OffsetTally(lat, SECRET_LENGTH - 1)
      ensures output[0] == shown[SECRET_LENGTH - 1].0 && hitArray[0] == shown[SECRET_LENGTH - 1].1
      ensures engine.loads == old(engine.loads) + Repeat(Repeat(RoundLoads(probeAddr, engine.dummyMem), ATTACK_ROUNDS), SECRET_LENGTH)
      ensures engine.flushJunk == ProbeJunk(probeAddr, engine.dummyMem, engine.memory)
    {
      Setup();
      shown := AttackSecret(attackIdx0, lat);
    }
  }

}

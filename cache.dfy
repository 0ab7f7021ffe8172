/**
 * Cache geometry of the RSD L1 data cache and the eviction routine that stands
 * in for a missing flush instruction.
 *
 * Addresses are 32-bit: | tag | 11 set bits | 3 offset bits |. `FlushCache`
 * evicts the sets of a target range by loading, for each of those sets, one
 * byte per way from a buffer (`dummyMem`) whose addresses alias the target's
 * sets. The model records the addresses loaded; whether a load actually
 * replaces a line is a hardware matter and is not modelled.
 */
module Cache {
  import opened Bits

  const L1_DCACHE_WAYS: nat := 2
  const L1_DCACHE_BLOCK_BYTES: nat := 8
  const L1_DCACHE_BLOCK_BITS: nat := 3
  const L1_DCACHE_SETS: nat := 2048
  const L1_DCACHE_SETS_BITS: nat := 11
  const L1_DCACHE_CAPACITY_BYTES: nat := L1_DCACHE_SETS * L1_DCACHE_WAYS * L1_DCACHE_BLOCK_BYTES

  /** Bytes spanned by one way of the cache: addresses this far apart share a set. */
  const WAY_SPAN: nat := L1_DCACHE_SETS * L1_DCACHE_BLOCK_BYTES

  const MULTIPLIER: nat := 2
  /** Size of the eviction buffer `dummyMem`. */
  const DUMMY_MEM_BYTES: nat := MULTIPLIER * L1_DCACHE_CAPACITY_BYTES

  const FULL_MASK: nat := 0xFFFF_FFFF

  const OFFSET_MASK: nat :=
    (Pow2Values(); Not(Shl(FULL_MASK, L1_DCACHE_BLOCK_BITS, 32), 32))

  const TAG_MASK: nat :=
    Shl(FULL_MASK, L1_DCACHE_SETS_BITS + L1_DCACHE_BLOCK_BITS, 32)

  const SET_MASK: nat :=
    (TagOffsetUnion(); Not(Or(TAG_MASK, OFFSET_MASK), 32))

  /** The tag and offset masks share no bit, so their union is their sum. */
  lemma TagOffsetUnion()
    ensures Pow2(32) == TWO32
    ensures OFFSET_MASK == 0x7 && TAG_MASK == 0xFFFF_C000
    ensures Or(TAG_MASK, OFFSET_MASK) == 0xFFFF_C007
  {
    MaskConstants();
    TagOffsetDisjoint();
    OrDisjoint(TAG_MASK, OFFSET_MASK);
  }

  lemma MaskConstants()
    ensures Pow2(32) == TWO32
    ensures OFFSET_MASK == 0x7 && TAG_MASK == 0xFFFF_C000
  {
    Pow2Values();
  }

  lemma TagOffsetDisjoint()
    ensures And(TAG_MASK, OFFSET_MASK) == 0
  {
    MaskConstants();
    Pow2Values();
    AndLowMask(TAG_MASK, 3);
  }

  lemma MaskValues()
    ensures OFFSET_MASK == 0x7 && SET_MASK == 0x3FF8 && TAG_MASK == 0xFFFF_C000
  {
    TagOffsetUnion();
  }

  /**
   * The three masks partition the 32-bit word: no two share a bit and together
   * they cover all of it.
   */
  lemma MasksPartition()
    ensures And(OFFSET_MASK, SET_MASK) == 0
    ensures And(SET_MASK, TAG_MASK) == 0
    ensures And(OFFSET_MASK, TAG_MASK) == 0
    ensures Or(Or(OFFSET_MASK, SET_MASK), TAG_MASK) == FULL_MASK
  {
    MaskValues();
    Pow2Values();
    AndComm(OFFSET_MASK, SET_MASK);
    AndLowMask(SET_MASK, 3);
    AndHighMask(SET_MASK, 14, 32);
    AndComm(SET_MASK, TAG_MASK);
    TagOffsetDisjoint();
    AndComm(OFFSET_MASK, TAG_MASK);
    OrDisjoint(OFFSET_MASK, SET_MASK);
    AndHighMask(0x3FFF, 14, 32);
    AndComm(0x3FFF, TAG_MASK);
    OrDisjoint(0x3FFF, TAG_MASK);
  }

  /** The set index of an address, extracted as the source does (line 77). */
  function SetIndex(addr: u32): (r: nat)
  {
    Shr(And(addr, SET_MASK), L1_DCACHE_BLOCK_BITS)
  }

  /**
   * What each mask extracts from an address: the offset is the address modulo
   * the block size, the tag is the address rounded down to a way span, the set
   * bits are what lies between, and the three fields add up to the address.
   */
  lemma AddressFields(a: u32)
    ensures And(a, OFFSET_MASK) == a % L1_DCACHE_BLOCK_BYTES
    ensures And(a, SET_MASK) == a % WAY_SPAN - a % L1_DCACHE_BLOCK_BYTES
    ensures And(a, TAG_MASK) == a / WAY_SPAN * WAY_SPAN
    ensures And(a, TAG_MASK) + And(a, SET_MASK) + And(a, OFFSET_MASK) == a
    ensures SetIndex(a) == a / L1_DCACHE_BLOCK_BYTES % L1_DCACHE_SETS
  {
    MaskValues();
    Pow2Values();
    AndLowMask(a, 3);
    AndFieldMask(a, 3, 14);
    AndHighMask(a, 14, 32);
    RoundDown(a, WAY_SPAN);
    SetField(a);
    ShrDiv(And(a, SET_MASK), L1_DCACHE_BLOCK_BITS);
  }

  /** The set an address maps to, stated arithmetically. */
  function SetOf(a: nat): (s: nat)
    ensures s < L1_DCACHE_SETS
  {
    a / L1_DCACHE_BLOCK_BYTES % L1_DCACHE_SETS
  }

  lemma SetIndexValue(a: u32)
    ensures SetIndex(a) == SetOf(a)
  {
    AddressFields(a);
  }

  lemma OffsetValue(a: u32)
    ensures And(a, OFFSET_MASK) == a % L1_DCACHE_BLOCK_BYTES
  {
    AddressFields(a);
  }

  lemma SetField(a: nat)
    ensures (a % WAY_SPAN - a % L1_DCACHE_BLOCK_BYTES) / L1_DCACHE_BLOCK_BYTES == a / L1_DCACHE_BLOCK_BYTES % L1_DCACHE_SETS
  {
    ModDouble8(a);
  }

  /** a mod 2^14 splits into 8 times (a / 8 mod 2^11) plus a mod 8. */
  lemma ModDouble8(a: nat)
    ensures a % WAY_SPAN == 8 * (a / 8 % L1_DCACHE_SETS) + a % 8
  {
    var q := a / 8;
    ModUnique(a, WAY_SPAN, q / L1_DCACHE_SETS, 8 * (q % L1_DCACHE_SETS) + a % 8);
  }

  // ---------------------------------------------------------------------------
  // The eviction schedule, stated arithmetically

  function Min(a: nat, b: nat): (r: nat) { if a <= b then a else b }

  /** Number of blocks needed to hold n bytes. */
  function CeilBlocks(n: nat): (c: nat)
    ensures c * L1_DCACHE_BLOCK_BYTES >= n
    ensures c == 0 || (c - 1) * L1_DCACHE_BLOCK_BYTES < n
  {
    (n + L1_DCACHE_BLOCK_BYTES - 1) / L1_DCACHE_BLOCK_BYTES
  }

  /** How many consecutive sets an eviction of memSize bytes clears. */
  function SetsToClear(memSize: nat): (n: nat)
    ensures n <= L1_DCACHE_SETS
  {
    Min(CeilBlocks(memSize), L1_DCACHE_SETS)
  }

  /**
   * The tag-aligned base inside dummyMem: one cache capacity past the start of
   * the buffer, rounded down to a multiple of the way span.
   */
  function AlignedBase(dummyMem: u32): (r: u32)
  {
    (dummyMem + L1_DCACHE_CAPACITY_BYTES) % TWO32 / WAY_SPAN * WAY_SPAN
  }

  /** The address loaded for set i (counted from the target's set) and way j. */
  function LoadAddress(memAddr: u32, dummyMem: u32, i: nat, j: nat): (r: u32)
  {
    (AlignedBase(dummyMem)
     + (memAddr / L1_DCACHE_BLOCK_BYTES % L1_DCACHE_SETS + i) * L1_DCACHE_BLOCK_BYTES
     + j * WAY_SPAN) % TWO32
  }

  /** Every address FlushCache loads, in the order it loads them. */
  function EvictionSchedule(memAddr: u32, memSize: u32, dummyMem: u32): (s: seq<u32>)
    ensures |s| == SetsToClear(memSize) * L1_DCACHE_WAYS
  {
    seq(SetsToClear(memSize) * L1_DCACHE_WAYS,
        k requires 0 <= k => LoadAddress(memAddr, dummyMem, k / L1_DCACHE_WAYS, k % L1_DCACHE_WAYS))
  }

  /** n copies of the load sequence s, one after the other: what n identical flushes load. */
  function Repeat<T>(s: seq<T>, n: nat): (r: seq<T>)
  {
    if n == 0 then [] else Repeat(s, n - 1) + s
  }

  /** n identical flushes load n times as many addresses as one. */
  lemma {:induction false} RepeatLength<T>(s: seq<T>, n: nat)
    ensures |Repeat(s, n)| == n * |s|
  {
    if n > 0 {
      RepeatLength(s, n - 1);
      assert n * |s| == (n - 1) * |s| + |s|;
    }
  }

  /** Load q * |s| + r of n identical flushes is load r of one flush. */
  lemma {:induction false} RepeatIndex<T>(s: seq<T>, n: nat, q: nat, r: nat)
    requires q < n && r < |s|
    ensures q * |s| + r < |Repeat(s, n)| && Repeat(s, n)[q * |s| + r] == s[r]
  {
    RepeatLength(s, n - 1);
    var p := (n - 1) * |s|;
    if q < n - 1 {
      RepeatIndex(s, n - 1, q, r);
    } else {
      assert q * |s| == p;
    }
  }

  /** The k-th load of n identical flushes is load k mod |s| of one flush. */
  lemma RepeatAt<T>(s: seq<T>, n: nat)
    ensures |Repeat(s, n)| == n * |s|
    ensures forall k :: 0 <= k < n * |s| ==> Repeat(s, n)[k] == s[k % |s|]
  {
    RepeatLength(s, n);
    forall k | 0 <= k < n * |s|
      ensures Repeat(s, n)[k] == s[k % |s|]
    {
      var q, r := k / |s|, k % |s|;
      assert k == q * |s| + r;
      assert q < n by {
        if q >= n { MulAtLeast(|s|, q - n + 1); }
      }
      RepeatIndex(s, n, q, r);
    }
  }

  /** a + b identical flushes load what a flushes and then b flushes load. */
  lemma {:induction false} RepeatSplit<T>(s: seq<T>, a: nat, b: nat)
    ensures Repeat(s, a + b) == Repeat(s, a) + Repeat(s, b)
    decreases b
  {
    if b > 0 {
      RepeatSplit(s, a, b - 1);
      AppendAssoc(Repeat(s, a), Repeat(s, b - 1), s);
    }
  }

  /** n groups of r identical flushes load what n * r of those flushes load. */
  lemma {:induction false} RepeatNest<T>(s: seq<T>, r: nat, n: nat)
    ensures Repeat(Repeat(s, r), n) == Repeat(s, n * r)
  {
    if n > 0 {
      RepeatNest(s, r, n - 1);
      RepeatSplit(s, (n - 1) * r, r);
      assert (n - 1) * r + r == n * r;
    }
  }

  // ---------------------------------------------------------------------------
  // Arithmetic helpers

  /** Adding a multiple of m does not change the residue. */
  lemma ModAddMultiple(y: int, m: int, t: int)
    requires m > 0
    ensures (m * t + y) % m == y % m
  {
    ModUnique(m * t + y, m, t + y / m, y % m);
  }

  /** Reducing a block number modulo 2^29 and then modulo the set count is reducing it modulo the set count. */
  lemma ModOfMod(y: nat)
    ensures y % 0x2000_0000 % L1_DCACHE_SETS == y % L1_DCACHE_SETS
  {
    var q, r := y / 0x2000_0000, y % 0x2000_0000;
    assert y == L1_DCACHE_SETS * (0x4_0000 * q) + r;
    ModAddMultiple(r, L1_DCACHE_SETS, 0x4_0000 * q);
  }

  /** A common factor comes out of a remainder. */
  lemma ModScale(y: nat, c: nat, m: nat)
    requires c > 0 && m > 0
    ensures (c * y) % (c * m) == c * (y % m)
  {
    ModUnique(c * y, c * m, y / m, c * (y % m));
  }

  /** Two numbers closer than m but not equal have different residues mod m. */
  lemma ModDistinct(a: int, b: int, m: int)
    requires m > 0 && a != b && -m < a - b < m
    ensures a % m != b % m
  {
    if a % m == b % m {
      var qa, qb := a / m, b / m;
      assert m * (qa - qb) == a - b;
      if qa > qb {
        MulAtLeast(m, qa - qb);
      } else if qa < qb {
        MulAtLeast(m, qb - qa);
      }
    }
  }

  lemma ModAddLeft(x: int, y: int, m: int)
    requires m > 0
    ensures (x % m + y) % m == (x + y) % m
  {
    ModAddMultiple(x % m + y, m, x / m);
    assert m * (x / m) + (x % m + y) == x + y;
  }

  // ---------------------------------------------------------------------------
  // What the schedule reads

  /**
   * A scheduled address is 8 times a block number taken modulo 2^29: the block
   * number of the aligned base plus the set and way displacements.
   */
  lemma LoadAddressBlock(memAddr: u32, dummyMem: u32, i: nat, j: nat)
    ensures AlignedBase(dummyMem) % WAY_SPAN == 0
    ensures LoadAddress(memAddr, dummyMem, i, j)
         == 8 * ((AlignedBase(dummyMem) / 8 + memAddr / 8 % L1_DCACHE_SETS + i + j * L1_DCACHE_SETS) % 0x2000_0000)
  {
    var base := (dummyMem + L1_DCACHE_CAPACITY_BYTES) % TWO32 / WAY_SPAN;
    assert AlignedBase(dummyMem) == WAY_SPAN * base;
    ModAddMultiple(0, WAY_SPAN, base);
    var y := AlignedBase(dummyMem) / 8 + memAddr / 8 % L1_DCACHE_SETS + i + j * L1_DCACHE_SETS;
    assert AlignedBase(dummyMem) / 8 == L1_DCACHE_SETS * base;
    ModScale(y, 8, 0x2000_0000);
  }

  /** The arithmetic core of ScheduleFields. */
  lemma LoadAddressSet(memAddr: u32, dummyMem: u32, i: nat, j: nat)
    ensures LoadAddress(memAddr, dummyMem, i, j) % 8 == 0
    ensures LoadAddress(memAddr, dummyMem, i, j) / 8 % L1_DCACHE_SETS
         == (memAddr / 8 % L1_DCACHE_SETS + i) % L1_DCACHE_SETS
  {
    LoadAddressBlock(memAddr, dummyMem, i, j);
    var base := AlignedBase(dummyMem) / WAY_SPAN;
    var r := memAddr / 8 % L1_DCACHE_SETS + i;
    var y := L1_DCACHE_SETS * (base + j) + r;
    assert AlignedBase(dummyMem) / 8 + memAddr / 8 % L1_DCACHE_SETS + i + j * L1_DCACHE_SETS == y;
    BlockSet(LoadAddress(memAddr, dummyMem, i, j), y, base + j, r);
  }

  /** An address that is 8 times a block number y mod 2^29 has set y mod 2^11. */
  lemma BlockSet(a: nat, y: nat, t: nat, r: nat)
    requires y == L1_DCACHE_SETS * t + r && a == 8 * (y % 0x2000_0000)
    ensures a % 8 == 0 && a / 8 % L1_DCACHE_SETS == r % L1_DCACHE_SETS
  {
    var z := y % 0x2000_0000;
    ModUnique(a, 8, z, 0);
    ModOfMod(y);
    ModAddMultiple(r, L1_DCACHE_SETS, t);
  }

  /**
   * Every address loaded for outer iteration i has a zero offset and the set
   * index i past the target's own (modulo the number of sets): it hits the i-th
   * set of the target range.
   */
  lemma ScheduleFields(memAddr: u32, memSize: u32, dummyMem: u32, k: nat)
    requires k < |EvictionSchedule(memAddr, memSize, dummyMem)|
    ensures And(EvictionSchedule(memAddr, memSize, dummyMem)[k], OFFSET_MASK) == 0
    ensures SetIndex(EvictionSchedule(memAddr, memSize, dummyMem)[k])
         == (SetIndex(memAddr) + k / L1_DCACHE_WAYS) % L1_DCACHE_SETS
  {
    var a := EvictionSchedule(memAddr, memSize, dummyMem)[k];
    LoadAddressSet(memAddr, dummyMem, k / L1_DCACHE_WAYS, k % L1_DCACHE_WAYS);
    OffsetValue(a);
    SetIndexValue(a);
    SetIndexValue(memAddr);
  }

  /**
   * The two ways of one set are one way span apart: the loads agree in their
   * offset and set bits and differ only in the tag.
   */
  lemma ScheduleWays(memAddr: u32, memSize: u32, dummyMem: u32, i: nat)
    requires i < SetsToClear(memSize)
    ensures EvictionSchedule(memAddr, memSize, dummyMem)[2 * i + 1]
         == (EvictionSchedule(memAddr, memSize, dummyMem)[2 * i] + WAY_SPAN) % TWO32
  {
    var sched := EvictionSchedule(memAddr, memSize, dummyMem);
    assert (2 * i) / 2 == i && (2 * i) % 2 == 0 && (2 * i + 1) / 2 == i && (2 * i + 1) % 2 == 1;
    assert sched[2 * i] == LoadAddress(memAddr, dummyMem, i, 0);
    assert sched[2 * i + 1] == LoadAddress(memAddr, dummyMem, i, 1);
    LoadAddressWays(memAddr, dummyMem, i);
  }

  /** The second way's load is one way span past the first's, modulo 2^32. */
  lemma LoadAddressWays(memAddr: u32, dummyMem: u32, i: nat)
    ensures LoadAddress(memAddr, dummyMem, i, 1) == (LoadAddress(memAddr, dummyMem, i, 0) + WAY_SPAN) % TWO32
  {
    ModAddLeft(AlignedBase(dummyMem) + (memAddr / 8 % L1_DCACHE_SETS + i) * 8, WAY_SPAN, TWO32);
  }

  /** No address is loaded twice. */
  lemma ScheduleDistinct(memAddr: u32, memSize: u32, dummyMem: u32, k1: nat, k2: nat)
    requires k1 < k2 < |EvictionSchedule(memAddr, memSize, dummyMem)|
    ensures EvictionSchedule(memAddr, memSize, dummyMem)[k1] != EvictionSchedule(memAddr, memSize, dummyMem)[k2]
  {
    var i1, j1 := k1 / L1_DCACHE_WAYS, k1 % L1_DCACHE_WAYS;
    var i2, j2 := k2 / L1_DCACHE_WAYS, k2 % L1_DCACHE_WAYS;
    LoadAddressBlock(memAddr, dummyMem, i1, j1);
    LoadAddressBlock(memAddr, dummyMem, i2, j2);
    var c := AlignedBase(dummyMem) / 8 + memAddr / 8 % L1_DCACHE_SETS;
    ModDistinct(c + i1 + j1 * L1_DCACHE_SETS, c + i2 + j2 * L1_DCACHE_SETS, 0x2000_0000);
  }

  /** The aligned base has zero set and offset bits. */
  lemma AlignedBaseFields(dummyMem: u32)
    ensures And(AlignedBase(dummyMem), SET_MASK) == 0 && And(AlignedBase(dummyMem), OFFSET_MASK) == 0
  {
    var t := (dummyMem + L1_DCACHE_CAPACITY_BYTES) % TWO32 / WAY_SPAN;
    SpanMultiple(AlignedBase(dummyMem), t);
    AddressFields(AlignedBase(dummyMem));
  }

  /** A multiple of the way span is a multiple of the block size too. */
  lemma SpanMultiple(a: nat, t: nat)
    requires a == t * WAY_SPAN
    ensures a % WAY_SPAN == 0 && a % L1_DCACHE_BLOCK_BYTES == 0
  {
    ModUnique(a, WAY_SPAN, t, 0);
    ModUnique(a, L1_DCACHE_BLOCK_BYTES, L1_DCACHE_SETS * t, 0);
  }

  /**
   * With dummyMem lying inside the 32-bit address space, the aligned base lies
   * inside dummyMem, and a whole cache capacity above it still does.
   */
  lemma AlignedBaseBounds(dummyMem: u32)
    requires dummyMem + DUMMY_MEM_BYTES <= TWO32
    ensures dummyMem < AlignedBase(dummyMem)
    ensures AlignedBase(dummyMem) + L1_DCACHE_CAPACITY_BYTES <= dummyMem + DUMMY_MEM_BYTES
  {
    var x := dummyMem + L1_DCACHE_CAPACITY_BYTES;
    ModBelow(x, TWO32);
    RoundDown(x, WAY_SPAN);
    assert AlignedBase(dummyMem) == x / WAY_SPAN * WAY_SPAN;
  }

  /** A load for a set of the target range that does not run past the last set lies inside dummyMem. */
  lemma LoadInDummyMem(memAddr: u32, dummyMem: u32, i: nat, j: nat)
    requires dummyMem + DUMMY_MEM_BYTES <= TWO32
    requires SetOf(memAddr) + i < L1_DCACHE_SETS && j < L1_DCACHE_WAYS
    ensures dummyMem <= LoadAddress(memAddr, dummyMem, i, j) < dummyMem + DUMMY_MEM_BYTES
  {
    AlignedBaseBounds(dummyMem);
    var x := AlignedBase(dummyMem) + (SetOf(memAddr) + i) * 8 + j * WAY_SPAN;
    assert x < AlignedBase(dummyMem) + L1_DCACHE_CAPACITY_BYTES;
    ModBelow(x, TWO32);
  }

  /**
   * Every load lands inside dummyMem, provided the target's sets do not run
   * past the last set (otherwise the set number carries into the tag bits).
   */
  lemma ScheduleInDummyMem(memAddr: u32, memSize: u32, dummyMem: u32, k: nat)
    requires dummyMem + DUMMY_MEM_BYTES <= TWO32
    requires SetOf(memAddr) + SetsToClear(memSize) <= L1_DCACHE_SETS
    requires k < |EvictionSchedule(memAddr, memSize, dummyMem)|
    ensures dummyMem <= EvictionSchedule(memAddr, memSize, dummyMem)[k] < dummyMem + DUMMY_MEM_BYTES
  {
    LoadInDummyMem(memAddr, dummyMem, k / L1_DCACHE_WAYS, k % L1_DCACHE_WAYS);
  }

  /**
   * Without that proviso a load can leave dummyMem: with dummyMem at 0x10000
   * and a 16-byte target in the last set, the second set wraps to set 0 one
   * tag higher, and its second way is the byte just past the buffer.
   */
  lemma CarryLeavesDummyMem(memAddr: u32, memSize: u32, dummyMem: u32)
    requires memAddr == 0x3FF8 && memSize == 16 && dummyMem == 0x1_0000
    ensures SetOf(memAddr) + SetsToClear(memSize) == L1_DCACHE_SETS + 1
    ensures EvictionSchedule(memAddr, memSize, dummyMem)[3] == dummyMem + DUMMY_MEM_BYTES
  {
    assert SetsToClear(memSize) == 2;
    assert AlignedBase(dummyMem) == 0x1_8000;
    assert EvictionSchedule(memAddr, memSize, dummyMem)[3] == LoadAddress(memAddr, dummyMem, 1, 1);
  }

  /** The arithmetic core of TargetSetsCovered: which set of the schedule covers byte a. */
  lemma CoveringSet(memAddr: u32, memSize: u32, a: u32) returns (t: nat)
    requires memAddr % L1_DCACHE_BLOCK_BYTES == 0
    requires memAddr <= a < memAddr + memSize
    ensures t < SetsToClear(memSize)
    ensures (memAddr / 8 % L1_DCACHE_SETS + t) % L1_DCACHE_SETS == a / 8 % L1_DCACHE_SETS
  {
    var p, q := memAddr / 8, a / 8;
    assert q - p < CeilBlocks(memSize) by {
      assert memAddr == 8 * p;
      assert 8 * q <= a;
    }
    t := SetDistance(p, q);
  }

  /** Set q is t sets past set p, for a t no larger than q - p and below the set count. */
  lemma SetDistance(p: nat, q: nat) returns (t: nat)
    requires p <= q
    ensures t <= q - p && t < L1_DCACHE_SETS
    ensures (p % L1_DCACHE_SETS + t) % L1_DCACHE_SETS == q % L1_DCACHE_SETS
  {
    t := (q - p) % L1_DCACHE_SETS;
    ModAddLeft(q - p, p % L1_DCACHE_SETS, L1_DCACHE_SETS);
    ModAddLeft(p, q - p, L1_DCACHE_SETS);
  }

  /**
   * When the target starts on a block boundary, every byte of it maps to a set
   * that some scheduled load also maps to.
   */
  lemma TargetSetsCovered(memAddr: u32, memSize: u32, dummyMem: u32, a: u32)
    requires memAddr % L1_DCACHE_BLOCK_BYTES == 0
    requires memAddr <= a < memAddr + memSize
    ensures exists k :: 0 <= k < |EvictionSchedule(memAddr, memSize, dummyMem)|
                     && SetIndex(EvictionSchedule(memAddr, memSize, dummyMem)[k]) == SetIndex(a)
  {
    var t := CoveringSet(memAddr, memSize, a);
    var k := 2 * t;
    assert k / L1_DCACHE_WAYS == t;
    ScheduleFields(memAddr, memSize, dummyMem, k);
    SetIndexValue(memAddr);
    SetIndexValue(a);
    assert SetIndex(EvictionSchedule(memAddr, memSize, dummyMem)[k]) == SetIndex(a);
  }

  /**
   * A target that does not start on a block boundary can end in one block more
   * than its size rounded up: bytes 4..11 span sets 0 and 1, but only set 0
   * is loaded.
   */
  lemma UnalignedTargetMissesLastSet(memAddr: u32, memSize: u32, dummyMem: u32, a: u32)
    requires memAddr == 4 && memSize == 8 && a == 11
    ensures memAddr <= a < memAddr + memSize
    ensures forall k :: 0 <= k < |EvictionSchedule(memAddr, memSize, dummyMem)| ==>
              SetOf(EvictionSchedule(memAddr, memSize, dummyMem)[k]) != SetOf(a)
  {
    var sched := EvictionSchedule(memAddr, memSize, dummyMem);
    assert SetsToClear(memSize) == 1 && |sched| == 2;
    forall k | 0 <= k < |sched|
      ensures SetOf(sched[k]) != SetOf(a)
    {
      assert sched[k] == LoadAddress(memAddr, dummyMem, 0, k);
      LoadAddressSet(memAddr, dummyMem, 0, k);
    }
  }

  // ---------------------------------------------------------------------------
  // The eviction routine as the source writes it

  /** The source's count of sets to clear, before the cap, is the size rounded up to blocks. */
  lemma SourceSetCount(memSize: u32)
    ensures Shr(memSize, L1_DCACHE_BLOCK_BITS) + (if And(memSize, OFFSET_MASK) != 0 then 1 else 0)
         == CeilBlocks(memSize)
  {
    Pow2Values();
    OffsetValue(memSize);
    ShrDiv(memSize, L1_DCACHE_BLOCK_BITS);
  }

  /** The source's aligned base is AlignedBase. */
  lemma SourceAlignedBase(dummyMem: u32)
    ensures And(Add32(dummyMem, L1_DCACHE_CAPACITY_BYTES), TAG_MASK) == AlignedBase(dummyMem)
  {
    AddressFields(Add32(dummyMem, L1_DCACHE_CAPACITY_BYTES));
  }

  /** The source's set and way offsets do not overflow. */
  lemma SourceOffsets(s: nat, i: nat, j: nat)
    requires s < L1_DCACHE_SETS && i < L1_DCACHE_SETS && j < L1_DCACHE_WAYS
    ensures Shl32(s + i, L1_DCACHE_BLOCK_BITS) == (s + i) * L1_DCACHE_BLOCK_BYTES
    ensures Shl32(j, L1_DCACHE_BLOCK_BITS + L1_DCACHE_SETS_BITS) == j * WAY_SPAN
  {
    Pow2Values();
    ModBelow((s + i) * 8, TWO32);
    ModBelow(j * WAY_SPAN, TWO32);
  }

  /** Two wrapping additions are one addition reduced once. */
  lemma Add32Twice(a: u32, x: u32, y: u32)
    ensures Add32(Add32(a, x), y) == (a + x + y) % TWO32
  {
    ModAddLeft(a + x, y, TWO32);
  }

  /**
   * The address the source loads for set i and way j, from the aligned base and
   * the two offsets, is LoadAddress.
   */
  lemma SourceLoad(memAddr: u32, dummyMem: u32, alignedMem: u32, setOffset: u32, wayOffset: u32, i: nat, j: nat)
    requires alignedMem == AlignedBase(dummyMem)
    requires setOffset == (SetOf(memAddr) + i) * L1_DCACHE_BLOCK_BYTES && wayOffset == j * WAY_SPAN
    ensures Add32(Add32(alignedMem, setOffset), wayOffset) == LoadAddress(memAddr, dummyMem, i, j)
  {
    Add32Twice(alignedMem, setOffset, wayOffset);
  }

  /** The loads for the first w ways of set i, in order. */
  function WayLoads(memAddr: u32, dummyMem: u32, i: nat, w: nat): (s: seq<u32>)
    ensures |s| == w
  {
    if w == 0 then [] else WayLoads(memAddr, dummyMem, i, w - 1) + [LoadAddress(memAddr, dummyMem, i, w - 1)]
  }

  /** The loads for the first n sets, set by set and way by way within a set. */
  function SetLoads(memAddr: u32, dummyMem: u32, n: nat): (s: seq<u32>)
    ensures |s| == n * L1_DCACHE_WAYS
  {
    if n == 0 then [] else SetLoads(memAddr, dummyMem, n - 1) + WayLoads(memAddr, dummyMem, n - 1, L1_DCACHE_WAYS)
  }

  /** Entry k of the set-by-set loads is the load for set k / 2, way k % 2. */
  lemma {:induction false} SetLoadsAt(memAddr: u32, dummyMem: u32, n: nat, k: nat)
    requires k < n * L1_DCACHE_WAYS
    ensures SetLoads(memAddr, dummyMem, n)[k] == LoadAddress(memAddr, dummyMem, k / L1_DCACHE_WAYS, k % L1_DCACHE_WAYS)
  {
    if k < (n - 1) * L1_DCACHE_WAYS {
      SetLoadsAt(memAddr, dummyMem, n - 1, k);
    } else {
      assert WayLoads(memAddr, dummyMem, n - 1, L1_DCACHE_WAYS)
          == [LoadAddress(memAddr, dummyMem, n - 1, 0), LoadAddress(memAddr, dummyMem, n - 1, 1)];
      assert k / L1_DCACHE_WAYS == n - 1 && k % L1_DCACHE_WAYS == k - (n - 1) * L1_DCACHE_WAYS;
    }
  }

  /** Loading set after set, way after way, is loading the eviction schedule. */
  lemma SetLoadsSchedule(memAddr: u32, memSize: u32, dummyMem: u32)
    ensures SetLoads(memAddr, dummyMem, SetsToClear(memSize)) == EvictionSchedule(memAddr, memSize, dummyMem)
  {
    var n := SetsToClear(memSize);
    forall k | 0 <= k < n * L1_DCACHE_WAYS
      ensures SetLoads(memAddr, dummyMem, n)[k] == EvictionSchedule(memAddr, memSize, dummyMem)[k]
    {
      SetLoadsAt(memAddr, dummyMem, n, k);
    }
  }

  /** The tag-aligned base inside dummyMem, computed as the source does. */
  method AlignedMem(dummyMem: u32) returns (alignedMem: u32)
    ensures alignedMem == AlignedBase(dummyMem)
  {
    SourceAlignedBase(dummyMem);
    alignedMem := And(Add32(dummyMem, L1_DCACHE_CAPACITY_BYTES), TAG_MASK);
  }

  /** The offset of set i of the range from the aligned base, computed as the source does. */
  method SetOffset(memAddr: u32, i: nat) returns (setOffset: u32)
    requires i < L1_DCACHE_SETS
    ensures setOffset == (SetOf(memAddr) + i) * L1_DCACHE_BLOCK_BYTES
  {
    SetIndexValue(memAddr);
    SourceOffsets(SetOf(memAddr), i, 0);
    setOffset := Shl32(SetIndex(memAddr) + i, L1_DCACHE_BLOCK_BITS);
  }

  /** The offset of way j from the start of its set, computed as the source does. */
  method WayOffset(j: nat) returns (wayOffset: u32)
    requires j < L1_DCACHE_WAYS
    ensures wayOffset == j * WAY_SPAN
  {
    SourceOffsets(0, 0, j);
    wayOffset := Shl32(j, L1_DCACHE_BLOCK_BITS + L1_DCACHE_SETS_BITS);
  }

  /**
   * The number of sets to clear, computed as the source does: the size shifted
   * down to blocks, one more when there is a partial block, capped at the
   * number of sets.
   */
  method SetCount(memSize: u32) returns (numSetsClear: nat)
    ensures numSetsClear == SetsToClear(memSize)
  {
    numSetsClear := Shr(memSize, L1_DCACHE_BLOCK_BITS);
    if And(memSize, OFFSET_MASK) != 0 {
      numSetsClear := numSetsClear + 1;
    }
    if numSetsClear > L1_DCACHE_SETS {
      numSetsClear := L1_DCACHE_SETS;
    }
    SourceSetCount(memSize);
  }

  /**
   * The eviction routine with its global state: the address of the buffer
   * `dummyMem`, the memory contents it reads, and the sink `flushJunk` every
   * load is stored into. The ghost `loads` records every address read.
   */
  class EvictionEngine {
    const dummyMem: u32
    const memory: u32 -> u8
    var flushJunk: u8
    ghost var loads: seq<u32>

    /** dummyMem is a zero-initialised global that nothing writes: each of its bytes reads 0. */
    ghost predicate DummyMemZero()
    {
      forall a: u32 :: dummyMem <= a < dummyMem + DUMMY_MEM_BYTES ==> memory(a) == 0
    }

    constructor (dummyMem: u32, memory: u32 -> u8)
      requires forall a: u32 :: dummyMem <= a < dummyMem + DUMMY_MEM_BYTES ==> memory(a) == 0
      ensures this.dummyMem == dummyMem && this.memory == memory
      ensures flushJunk == 0 && loads == [] && DummyMemZero()
    {
      this.dummyMem := dummyMem;
      this.memory := memory;
      flushJunk := 0;
      loads := [];
    }

    /**
     * Every byte a flush loads reads 0, so flush_junk stays at its initial 0,
     * provided the target's sets do not run past the last set.
     */
    lemma FlushJunkZero(memAddr: u32, memSize: u32)
      requires DummyMemZero() && dummyMem + DUMMY_MEM_BYTES <= TWO32
      requires SetOf(memAddr) + SetsToClear(memSize) <= L1_DCACHE_SETS
      ensures var sched := EvictionSchedule(memAddr, memSize, dummyMem);
              forall k :: 0 <= k < |sched| ==> memory(sched[k]) == 0
    {
      var sched := EvictionSchedule(memAddr, memSize, dummyMem);
      forall k | 0 <= k < |sched|
        ensures memory(sched[k]) == 0
      {
        ScheduleInDummyMem(memAddr, memSize, dummyMem, k);
      }
    }

    /**
     * Loads, for each of the sets the range [memAddr, memAddr + memSize)
     * starts in (at most all of them), one byte per way from dummyMem, in the
     * order of EvictionSchedule; flushJunk holds the last byte read.
     */
    method FlushCache(memAddr: u32, memSize: u32)
      modifies this`flushJunk, this`loads
      ensures loads == old(loads) + EvictionSchedule(memAddr, memSize, dummyMem)
      ensures var sched := EvictionSchedule(memAddr, memSize, dummyMem);
              flushJunk == if |sched| == 0 then old(flushJunk) else memory(sched[|sched| - 1])
    {
      var numSetsClear := SetCount(memSize);
      var alignedMem := AlignedMem(dummyMem);
      var i: nat := 0;
      while i < numSetsClear
        invariant i <= numSetsClear
        invariant loads == old(loads) + SetLoads(memAddr, dummyMem, i)
        invariant flushJunk == if i == 0 then old(flushJunk) else memory(LoadAddress(memAddr, dummyMem, i - 1, L1_DCACHE_WAYS - 1))
      {
        var setOffset := SetOffset(memAddr, i);
        EvictSet(memAddr, alignedMem, i, setOffset);
        i := i + 1;
      }
      SetLoadsSchedule(memAddr, memSize, dummyMem);
      if i > 0 {
        SetLoadsAt(memAddr, dummyMem, i, i * L1_DCACHE_WAYS - 1);
      }
    }

    /** The inner loop of FlushCache: one load per way, for set i of the range. */
    method EvictSet(memAddr: u32, alignedMem: u32, i: nat, setOffset: u32)
      requires alignedMem == AlignedBase(dummyMem)
      requires setOffset == (SetOf(memAddr) + i) * L1_DCACHE_BLOCK_BYTES
      modifies this`flushJunk, this`loads
      ensures loads == old(loads) + WayLoads(memAddr, dummyMem, i, L1_DCACHE_WAYS)
      ensures flushJunk == memory(LoadAddress(memAddr, dummyMem, i, L1_DCACHE_WAYS - 1))
    {
      var j: nat := 0;
      while j < L1_DCACHE_WAYS
        invariant j <= L1_DCACHE_WAYS
        invariant loads == old(loads) + WayLoads(memAddr, dummyMem, i, j)
        invariant j > 0 ==> flushJunk == memory(LoadAddress(memAddr, dummyMem, i, j - 1))
      {
        var wayOffset := WayOffset(j);
        var addr := Add32(Add32(alignedMem, setOffset), wayOffset);
        SourceLoad(memAddr, dummyMem, alignedMem, setOffset, wayOffset, i, j);
        flushJunk := memory(addr);
        loads := loads + [addr];
        j := j + 1;
      }
    }
  }
}

/**
 * Aggregation of the per-candidate hit counts: the top-two scan used by the
 * bounds-check-bypass attack and the top-one scan used by the RSD attack.
 *
 * Both scans compare with a strict `>`, so among equal counts the lowest index
 * wins. The specification functions below state the outcome without reference
 * to the scan: the largest count, the lowest index holding it, the largest
 * count at any other position, and the lowest other index holding that.
 */
module Aggregate {
  import opened Bits

  function Max(a: nat, b: nat): (r: nat) { if a >= b then a else b }

  /** The largest s[k] over positions k other than skip, or 0 if there is none. */
  function MaxExcept(s: seq<nat>, skip: int): (r: nat)
  {
    if |s| == 0 then 0
    else
      var rest := MaxExcept(s[..|s| - 1], skip);
      if |s| - 1 == skip then rest else Max(rest, s[|s| - 1])
  }

  /** The lowest position other than skip holding v, or |s| if there is none. */
  function FirstIndexOf(s: seq<nat>, v: nat, skip: int): (r: nat)
    ensures r <= |s|
  {
    if |s| == 0 then 0
    else
      var r := FirstIndexOf(s[..|s| - 1], v, skip);
      if r < |s| - 1 then r
      else if |s| - 1 != skip && s[|s| - 1] == v then |s| - 1
      else |s|
  }

  /** The largest count, or 0 for an empty table. */
  function Top(s: seq<nat>): (r: nat) { MaxExcept(s, -1) }

  /** The lowest index holding the largest count. */
  function Leader(s: seq<nat>): (r: nat) { FirstIndexOf(s, Top(s), -1) }

  /** The largest count at a position other than the leader's, or 0. */
  function RunnerUp(s: seq<nat>): (r: nat) { MaxExcept(s, Leader(s)) }

  /** The lowest position other than the leader's holding the runner-up count. */
  function RunnerUpIdx(s: seq<nat>): (r: nat) { FirstIndexOf(s, RunnerUp(s), Leader(s)) }

  // ---------------------------------------------------------------------------
  // Characterisations

  /**
   * MaxExcept bounds every position other than skip, and is either 0 or held
   * by one of them.
   */
  lemma {:induction false} MaxExceptIsMax(s: seq<nat>, skip: int)
    ensures forall k :: 0 <= k < |s| && k != skip ==> s[k] <= MaxExcept(s, skip)
    ensures MaxExcept(s, skip) == 0 || exists k :: 0 <= k < |s| && k != skip && s[k] == MaxExcept(s, skip)
  {
    if |s| > 0 {
      var p := s[..|s| - 1];
      MaxExceptIsMax(p, skip);
      assert forall k :: 0 <= k < |p| ==> p[k] == s[k];
      if MaxExcept(s, skip) != 0 {
        if MaxExcept(s, skip) == MaxExcept(p, skip) {
          var k :| 0 <= k < |p| && k != skip && p[k] == MaxExcept(p, skip);
          assert s[k] == MaxExcept(s, skip);
        } else {
          assert s[|s| - 1] == MaxExcept(s, skip);
        }
      }
    }
  }

  /**
   * FirstIndexOf, when below |s|, is a position other than skip holding v,
   * and no earlier position other than skip holds v.
   */
  lemma {:induction false} FirstIndexIsFirst(s: seq<nat>, v: nat, skip: int)
    ensures FirstIndexOf(s, v, skip) < |s| ==> s[FirstIndexOf(s, v, skip)] == v && FirstIndexOf(s, v, skip) != skip
    ensures forall k :: 0 <= k < FirstIndexOf(s, v, skip) && k != skip ==> s[k] != v
  {
    if |s| > 0 {
      var p := s[..|s| - 1];
      FirstIndexIsFirst(p, v, skip);
      assert forall k :: 0 <= k < |p| ==> p[k] == s[k];
    }
  }

  /** Any bound that is attained (or 0) is the maximum. */
  lemma MaxExceptUnique(s: seq<nat>, skip: int, r: nat)
    requires forall k :: 0 <= k < |s| && k != skip ==> s[k] <= r
    requires r == 0 || exists k :: 0 <= k < |s| && k != skip && s[k] == r
    ensures MaxExcept(s, skip) == r
  {
    MaxExceptIsMax(s, skip);
  }

  /** Any position holding v with no earlier one is the first index of v. */
  lemma FirstIndexUnique(s: seq<nat>, v: nat, skip: int, r: nat)
    requires r <= |s|
    requires r < |s| ==> s[r] == v && r != skip
    requires forall k :: 0 <= k < r && k != skip ==> s[k] != v
    ensures FirstIndexOf(s, v, skip) == r
  {
    FirstIndexIsFirst(s, v, skip);
  }

  /**
   * The leader holds the largest count and every earlier index holds less;
   * when that count is positive the leader is a real position.
   */
  lemma LeaderIsFirstMax(s: seq<nat>)
    ensures forall k :: 0 <= k < |s| ==> s[k] <= Top(s)
    ensures Top(s) > 0 ==> Leader(s) < |s| && s[Leader(s)] == Top(s)
    ensures forall k :: 0 <= k < Leader(s) && k < |s| ==> s[k] < Top(s)
  {
    MaxExceptIsMax(s, -1);
    FirstIndexIsFirst(s, Top(s), -1);
  }

  /** The runner-up never exceeds the top count. */
  lemma RunnerUpBelowTop(s: seq<nat>)
    ensures RunnerUp(s) <= Top(s)
    ensures RunnerUp(s) > 0 ==> RunnerUpIdx(s) < |s| && RunnerUpIdx(s) != Leader(s)
                                && s[RunnerUpIdx(s)] == RunnerUp(s)
  {
    MaxExceptIsMax(s, -1);
    MaxExceptIsMax(s, Leader(s));
    FirstIndexIsFirst(s, RunnerUp(s), Leader(s));
    if RunnerUp(s) > 0 {
      var k :| 0 <= k < |s| && k != Leader(s) && s[k] == RunnerUp(s);
      assert s[k] <= Top(s);
    }
  }

  /**
   * Two equal maxima: the lower index is ranked first and the higher second,
   * with the same count.
   */
  lemma TiedMaxima(s: seq<nat>, i: nat, j: nat)
    requires i < j < |s| && s[i] == s[j] && s[i] > 0
    requires forall k :: 0 <= k < |s| ==> s[k] <= s[i]
    requires forall k :: 0 <= k < |s| && k != i && k != j ==> s[k] < s[i]
    ensures Top(s) == s[i] && Leader(s) == i
    ensures RunnerUp(s) == s[i] && RunnerUpIdx(s) == j
  {
    MaxExceptUnique(s, -1, s[i]);
    FirstIndexUnique(s, s[i], -1, i);
    MaxExceptUnique(s, i, s[i]);
    FirstIndexUnique(s, s[i], i, j);
  }

  /** A table of zeros has top and runner-up 0. */
  lemma AllZero(s: seq<nat>)
    requires forall k :: 0 <= k < |s| ==> s[k] == 0
    ensures Top(s) == 0 && RunnerUp(s) == 0
  {
    MaxExceptUnique(s, -1, 0);
    MaxExceptUnique(s, Leader(s), 0);
  }

  // ---------------------------------------------------------------------------
  // One more entry

  lemma Extend(p: seq<nat>, x: nat)
    ensures (p + [x])[..|p|] == p && (p + [x])[|p|] == x
  {
  }

  /** A new strict maximum takes the lead and the old leader becomes runner-up. */
  lemma StepNewTop(p: seq<nat>, x: nat)
    requires x > Top(p)
    ensures Top(p + [x]) == x && Leader(p + [x]) == |p|
    ensures RunnerUp(p + [x]) == Top(p)
    ensures Top(p) > 0 ==> RunnerUpIdx(p + [x]) == Leader(p)
  {
    var q := p + [x];
    Extend(p, x);
    LeaderIsFirstMax(p);
    MaxExceptUnique(q, -1, x);
    FirstIndexUnique(q, x, -1, |p|);
    if Top(p) > 0 {
      MaxExceptUnique(q, |p|, Top(p));
      FirstIndexUnique(q, Top(p), |p|, Leader(p));
    } else {
      MaxExceptUnique(q, |p|, 0);
    }
  }

  /** An entry above the runner-up but not above the top becomes the new runner-up. */
  lemma StepNewRunnerUp(p: seq<nat>, x: nat)
    requires RunnerUp(p) < x <= Top(p)
    ensures Top(p + [x]) == Top(p) && Leader(p + [x]) == Leader(p)
    ensures RunnerUp(p + [x]) == x && RunnerUpIdx(p + [x]) == |p|
  {
    var q := p + [x];
    Extend(p, x);
    LeaderIsFirstMax(p);
    MaxExceptIsMax(p, Leader(p));
    MaxExceptUnique(q, -1, Top(p));
    FirstIndexUnique(q, Top(p), -1, Leader(p));
    MaxExceptUnique(q, Leader(p), x);
    FirstIndexUnique(q, x, Leader(p), |p|);
  }

  /** An entry not above the runner-up changes nothing that is reported. */
  lemma StepNoChange(p: seq<nat>, x: nat)
    requires x <= RunnerUp(p)
    ensures Top(p + [x]) == Top(p) && RunnerUp(p + [x]) == RunnerUp(p)
    ensures Top(p) > 0 ==> Leader(p + [x]) == Leader(p)
    ensures RunnerUp(p) > 0 ==> RunnerUpIdx(p + [x]) == RunnerUpIdx(p)
  {
    var q := p + [x];
    Extend(p, x);
    LeaderIsFirstMax(p);
    RunnerUpBelowTop(p);
    MaxExceptIsMax(p, Leader(p));
    FirstIndexIsFirst(p, RunnerUp(p), Leader(p));
    MaxExceptUnique(q, -1, Top(p));
    if Top(p) > 0 {
      FirstIndexUnique(q, Top(p), -1, Leader(p));
      MaxExceptUnique(q, Leader(p), RunnerUp(p));
      if RunnerUp(p) > 0 {
        FirstIndexUnique(q, RunnerUp(p), Leader(p), RunnerUpIdx(p));
      }
    } else {
      AllZero(q);
    }
  }

  // ---------------------------------------------------------------------------
  // The scans

  /**
   * What the top-two scan reports after the entries p, given the index slots
   * it started with: the top and runner-up counts, and for each rank the index
   * (as a byte) that claimed it, or what the slot held before.
   */
  ghost predicate TopTwoReport(p: seq<nat>, v0: nat, v1: nat, d0: u8, d1: u8, idx0: u8, idx1: u8)
  {
    && v0 == Top(p) && v1 == RunnerUp(p)
    && d0 == (if Top(p) > 0 then Leader(p) % 256 else idx0)
    && d1 == (if RunnerUp(p) > 0 then RunnerUpIdx(p) % 256 else if Top(p) > 0 then idx0 else idx1)
  }

  /** The scan's three-way update keeps the report right for one more entry. */
  lemma TopTwoUpdate(p: seq<nat>, x: nat, v0: nat, v1: nat, d0: u8, d1: u8, idx0: u8, idx1: u8)
    requires TopTwoReport(p, v0, v1, d0, d1, idx0, idx1)
    ensures x > v0 ==> TopTwoReport(p + [x], x, v0, |p| % 256, d0, idx0, idx1)
    ensures !(x > v0) && x > v1 ==> TopTwoReport(p + [x], v0, x, d0, |p| % 256, idx0, idx1)
    ensures !(x > v0) && !(x > v1) ==> TopTwoReport(p + [x], v0, v1, d0, d1, idx0, idx1)
  {
    if x > v0 {
      StepNewTop(p, x);
    } else if x > v1 {
      StepNewRunnerUp(p, x);
    } else {
      StepNoChange(p, x);
    }
  }

  /**
   * The top-two scan of inArray[..inArraySize]. Only slots 0 and 1 of the
   * output arrays are written; an index is stored in a byte, so modulo 256.
   * An index slot is written only when its rank is claimed by a positive count,
   * and the old first index moves to the second slot when a new top appears.
   */
  method TopTwoIdx(inArray: array<nat>, inArraySize: u32, outIdxArray: array<u8>, outValArray: array<nat>)
    requires inArraySize <= inArray.Length
    requires outIdxArray.Length >= 2 && outValArray.Length >= 2
    requires inArray != outValArray && inArray as object != outIdxArray as object
    modifies outIdxArray, outValArray
    ensures var s := inArray[..inArraySize];
            outValArray[0] == Top(s) && outValArray[1] == RunnerUp(s)
    ensures var s := inArray[..inArraySize];
            outIdxArray[0] == if Top(s) > 0 then Leader(s) % 256 else old(outIdxArray[0])
    ensures var s := inArray[..inArraySize];
            outIdxArray[1] == if RunnerUp(s) > 0 then RunnerUpIdx(s) % 256
                              else if Top(s) > 0 then old(outIdxArray[0])
                              else old(outIdxArray[1])
    ensures outIdxArray[2..] == old(outIdxArray[2..]) && outValArray[2..] == old(outValArray[2..])
  {
    ghost var idx0, idx1 := outIdxArray[0], outIdxArray[1];
    outValArray[0] := 0;
    outValArray[1] := 0;
    var i: u32 := 0;
    while i < inArraySize
      invariant i <= inArraySize
      invariant TopTwoReport(inArray[..i], outValArray[0], outValArray[1], outIdxArray[0], outIdxArray[1], idx0, idx1)
      invariant outIdxArray[2..] == old(outIdxArray[2..]) && outValArray[2..] == old(outValArray[2..])
    {
      var x := inArray[i];
      ghost var p := inArray[..i];
      assert inArray[..i + 1] == p + [x];
      TopTwoUpdate(p, x, outValArray[0], outValArray[1], outIdxArray[0], outIdxArray[1], idx0, idx1);
      if x > outValArray[0] {
        outValArray[1] := outValArray[0];
        outValArray[0] := x;
        outIdxArray[1] := outIdxArray[0];
        outIdxArray[0] := i % 256;
      } else if x > outValArray[1] {
        outValArray[1] := x;
        outIdxArray[1] := i % 256;
      }
      assert inArray[..i + 1] == p + [x];
      i := i + 1;
    }
    assert inArray[..i] == inArray[..inArraySize];
  }

  /**
   * What the top-one scan reports after the entries p, provided they are all
   * below 256: the top count and the lowest index holding it, or 0 and 0.
   */
  ghost predicate TopOneReport(p: seq<nat>, v: nat, d: nat)
  {
    (forall k :: 0 <= k < |p| ==> p[k] < 256) ==> v == Top(p) && d == (if Top(p) > 0 then Leader(p) else 0)
  }

  /** The scan's update keeps the report right for one more entry. */
  lemma TopOneUpdate(p: seq<nat>, x: nat, v: nat, d: nat)
    requires TopOneReport(p, v, d)
    ensures x > v ==> TopOneReport(p + [x], x % 256, |p|)
    ensures !(x > v) ==> TopOneReport(p + [x], v, d)
  {
    var q := p + [x];
    Extend(p, x);
    if forall k :: 0 <= k < |q| ==> q[k] < 256 {
      assert forall k :: 0 <= k < |p| ==> p[k] < 256 by {
        forall k | 0 <= k < |p| ensures p[k] < 256 {
          assert p[k] == q[k];
        }
      }
      TopOneStep(p, x);
      assert x == q[|p|];
    }
  }

  /**
   * The top-one scan of resultArray[..resultArraySize]. The value slot is a
   * byte, so a count is stored modulo 256 and later counts are compared with
   * the stored byte; while every count is below 256 the result is exact: the
   * largest count and the lowest index holding it, both 0 for a zero table.
   */
  method ResultOutput(resultArray: array<nat>, resultArraySize: u32, outIdxArray: array<nat>, outValArray: array<nat>)
    requires resultArraySize <= resultArray.Length
    requires outIdxArray.Length >= 1 && outValArray.Length >= 1
    requires resultArray != outIdxArray && resultArray != outValArray && outIdxArray != outValArray
    modifies outIdxArray, outValArray
    ensures outIdxArray[0] < resultArraySize || outIdxArray[0] == 0
    ensures outValArray[0] > 0 ==> outIdxArray[0] < resultArray.Length && outValArray[0] == resultArray[outIdxArray[0]] % 256
    ensures var s := resultArray[..resultArraySize];
            (forall k :: 0 <= k < |s| ==> s[k] < 256) ==>
              outValArray[0] == Top(s) && outIdxArray[0] == (if Top(s) > 0 then Leader(s) else 0)
    ensures outIdxArray[1..] == old(outIdxArray[1..]) && outValArray[1..] == old(outValArray[1..])
  {
    outValArray[0] := 0;
    outIdxArray[0] := 0;
    var i: u32 := 0;
    while i < resultArraySize
      invariant i <= resultArraySize
      invariant outIdxArray[0] < i || outIdxArray[0] == 0
      invariant outValArray[0] > 0 ==> outIdxArray[0] < resultArray.Length && outValArray[0] == resultArray[outIdxArray[0]] % 256
      invariant TopOneReport(resultArray[..i], outValArray[0], outIdxArray[0])
      invariant outIdxArray[1..] == old(outIdxArray[1..]) && outValArray[1..] == old(outValArray[1..])
    {
      var x := resultArray[i];
      assert resultArray[..i + 1] == resultArray[..i] + [x];
      TopOneUpdate(resultArray[..i], x, outValArray[0], outIdxArray[0]);
      if x > outValArray[0] {
        outIdxArray[0] := i;
        outValArray[0] := x % 256;
      }
      i := i + 1;
    }
    assert resultArray[..i] == resultArray[..resultArraySize];
  }

  /**
   * One more entry for the top-one scan: a strict new maximum takes the lead,
   * anything else leaves the top count and its leader as they were.
   */
  lemma TopOneStep(p: seq<nat>, x: nat)
    ensures x > Top(p) ==> Top(p + [x]) == x && Leader(p + [x]) == |p|
    ensures x <= Top(p) ==> Top(p + [x]) == Top(p)
    ensures x <= Top(p) && Top(p) > 0 ==> Leader(p + [x]) == Leader(p)
  {
    if x > Top(p) {
      StepNewTop(p, x);
    } else {
      StepNotAboveTop(p, x);
    }
  }

  lemma StepNotAboveTop(p: seq<nat>, x: nat)
    requires x <= Top(p)
    ensures Top(p + [x]) == Top(p)
    ensures Top(p) > 0 ==> Leader(p + [x]) == Leader(p)
  {
    var q := p + [x];
    Extend(p, x);
    LeaderIsFirstMax(p);
    MaxExceptUnique(q, -1, Top(p));
    if Top(p) > 0 {
      FirstIndexUnique(q, Top(p), -1, Leader(p));
    }
  }
}

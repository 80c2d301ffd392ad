/**
 * The host-side fix-up of the cell bucket table. The index kernel leaves `NO_CELL_ID` in
 * every slot whose cell holds no particle; the post-pass scans the table from the last slot
 * down to slot 0 and gives each such slot the value of the nearest filled slot to its right,
 * or the seed when there is none.
 */
module CellIndex {

  /** The value of the first slot at or after `j` that is not `noCell`, or `seed` if every such slot is `noCell`. */
  function NextNonEmpty(s: seq<int>, j: nat, seed: int, noCell: int): int
    requires j <= |s|
    decreases |s| - j
  {
    if j == |s| then seed
    else if s[j] != noCell then s[j]
    else NextNonEmpty(s, j + 1, seed, noCell)
  }

  /** The table after the post-pass: filled slots keep their value, empty ones take the next filled value to their right. */
  function PostPass(s: seq<int>, seed: int, noCell: int): (r: seq<int>)
    ensures |r| == |s|
  {
    seq(|s|, i requires 0 <= i < |s| => if s[i] == noCell then NextNonEmpty(s, i + 1, seed, noCell) else s[i])
  }

  /**
   * `runIndexPostPass` on the host copy of the table, of length `gridCellCount + 1`,
   * seeded with `gridCellCount`.
   */
  method IndexPostPass(buf: array<int>, gridCellCount: int, noCell: int)
    requires buf.Length == gridCellCount + 1
    modifies buf
    ensures buf[..] == PostPass(old(buf[..]), gridCellCount, noCell)
  {
    ghost var s := buf[..];
    var recentNonEmptyCell := gridCellCount;
    var i := gridCellCount;
    while i >= 0
      invariant -1 <= i <= gridCellCount
      invariant recentNonEmptyCell == NextNonEmpty(s, i + 1, gridCellCount, noCell)
      invariant forall k :: 0 <= k <= i ==> buf[k] == s[k]
      invariant forall k :: i < k <= gridCellCount ==> buf[k] == PostPass(s, gridCellCount, noCell)[k]
    {
      if buf[i] == noCell {
        buf[i] := recentNonEmptyCell;
      } else {
        recentNonEmptyCell := buf[i];
      }
      i := i - 1;
    }
    assert buf[..] == PostPass(s, gridCellCount, noCell);
  }

  /** `NextNonEmpty` is the value of the nearest filled slot at or after `j`, or the seed when all of them are empty. */
  lemma {:induction false} NextNonEmptyIsNearest(s: seq<int>, j: nat, seed: int, noCell: int)
    requires j <= |s|
    ensures var v := NextNonEmpty(s, j, seed, noCell);
      || (exists m :: j <= m < |s| && s[m] != noCell && v == s[m] && forall k :: j <= k < m ==> s[k] == noCell)
      || (v == seed && forall k :: j <= k < |s| ==> s[k] == noCell)
    decreases |s| - j
  {
    if j < |s| && s[j] == noCell {
      NextNonEmptyIsNearest(s, j + 1, seed, noCell);
      var v := NextNonEmpty(s, j + 1, seed, noCell);
      if exists m :: j + 1 <= m < |s| && s[m] != noCell && v == s[m] && forall k :: j + 1 <= k < m ==> s[k] == noCell {
        var m :| j + 1 <= m < |s| && s[m] != noCell && v == s[m] && forall k :: j + 1 <= k < m ==> s[k] == noCell;
        assert forall k :: j <= k < m ==> s[k] == noCell;
      }
    }
  }

  /** Every slot that held `noCell` now holds the value of the nearest filled slot to its right, or the seed if there is none. */
  lemma EmptySlotTakesNearestRight(s: seq<int>, seed: int, noCell: int, i: int)
    requires 0 <= i < |s| && s[i] == noCell
    ensures var r := PostPass(s, seed, noCell);
      || (exists m :: i < m < |s| && s[m] != noCell && r[i] == s[m] && forall k :: i < k < m ==> s[k] == noCell)
      || (r[i] == seed && forall k :: i < k < |s| ==> s[k] == noCell)
  {
    NextNonEmptyIsNearest(s, i + 1, seed, noCell);
  }

  /** The post-pass keeps the table's length and every slot that was already filled. */
  lemma FilledSlotsUnchanged(s: seq<int>, seed: int, noCell: int)
    ensures |PostPass(s, seed, noCell)| == |s|
    ensures forall i :: 0 <= i < |s| && s[i] != noCell ==> PostPass(s, seed, noCell)[i] == s[i]
  {
  }

  /** `NextNonEmpty` never yields `noCell` unless the seed is `noCell`. */
  lemma {:induction false} NextNonEmptyIsFilled(s: seq<int>, j: nat, seed: int, noCell: int)
    requires j <= |s| && seed != noCell
    ensures NextNonEmpty(s, j, seed, noCell) != noCell
    decreases |s| - j
  {
    if j < |s| && s[j] == noCell {
      NextNonEmptyIsFilled(s, j + 1, seed, noCell);
    }
  }

  /** With a seed other than `NO_CELL_ID`, no slot holds `NO_CELL_ID` after the post-pass. */
  lemma NoEmptySlotLeft(s: seq<int>, seed: int, noCell: int)
    requires seed != noCell
    ensures noCell !in PostPass(s, seed, noCell)
  {
    var r := PostPass(s, seed, noCell);
    forall i | 0 <= i < |s|
      ensures r[i] != noCell
    {
      if s[i] == noCell {
        NextNonEmptyIsFilled(s, i + 1, seed, noCell);
      }
    }
  }

  /** Running the post-pass on its own output changes nothing. */
  lemma PostPassIdempotent(s: seq<int>, seed: int, noCell: int)
    requires seed != noCell
    ensures PostPass(PostPass(s, seed, noCell), seed, noCell) == PostPass(s, seed, noCell)
  {
    NoEmptySlotLeft(s, seed, noCell);
  }

  /** The filled slots of `s` from `j` on are non-decreasing and bounded by the seed. */
  ghost predicate FilledAscending(s: seq<int>, j: nat, seed: int, noCell: int)
    requires j <= |s|
  {
    && (forall a, b :: j <= a < b < |s| && s[a] != noCell && s[b] != noCell ==> s[a] <= s[b])
    && (forall a :: j <= a < |s| && s[a] != noCell ==> s[a] <= seed)
  }

  /** Under `FilledAscending`, a filled slot, or the seed, bounds every `NextNonEmpty` value to its right from above. */
  lemma {:induction false} NextNonEmptyBounds(s: seq<int>, j: nat, seed: int, noCell: int)
    requires j <= |s| && FilledAscending(s, j, seed, noCell)
    ensures NextNonEmpty(s, j, seed, noCell) <= seed
    ensures forall a :: j <= a < |s| && s[a] != noCell ==> NextNonEmpty(s, j, seed, noCell) <= s[a]
    decreases |s| - j
  {
    if j < |s| && s[j] == noCell {
      NextNonEmptyBounds(s, j + 1, seed, noCell);
    }
  }

  /** `NextNonEmpty` grows as its start moves right. */
  lemma {:induction false} NextNonEmptyMonotone(s: seq<int>, j: nat, l: nat, seed: int, noCell: int)
    requires j <= l <= |s| && FilledAscending(s, j, seed, noCell)
    ensures NextNonEmpty(s, j, seed, noCell) <= NextNonEmpty(s, l, seed, noCell)
    decreases l - j
  {
    if j < l {
      if s[j] == noCell {
        NextNonEmptyMonotone(s, j + 1, l, seed, noCell);
      } else {
        NextNonEmptyIsNearest(s, l, seed, noCell);
      }
    }
  }

  /**
   * If the filled slots are already in ascending order and no larger than the seed,
   * the whole table is non-decreasing after the post-pass.
   */
  lemma PostPassSortedBelowSeed(s: seq<int>, seed: int, noCell: int)
    requires FilledAscending(s, 0, seed, noCell)
    ensures forall a, b :: 0 <= a < b < |s| ==> PostPass(s, seed, noCell)[a] <= PostPass(s, seed, noCell)[b]
  {
    var r := PostPass(s, seed, noCell);
    forall a, b | 0 <= a < b < |s|
      ensures r[a] <= r[b]
    {
      if s[a] == noCell {
        NextNonEmptyMonotone(s, a + 1, b, seed, noCell);
        if s[b] != noCell {
          NextNonEmptyBounds(s, a + 1, seed, noCell);
        } else {
          NextNonEmptyMonotone(s, a + 1, b + 1, seed, noCell);
        }
      } else if s[b] == noCell {
        NextNonEmptyIsNearest(s, b + 1, seed, noCell);
      }
    }
  }

  /** The filled slots of `s` are in ascending order. */
  ghost predicate FilledSlotsAscend(s: seq<int>, noCell: int) {
    forall a, b :: 0 <= a < b < |s| && s[a] != noCell && s[b] != noCell ==> s[a] <= s[b]
  }

  ghost predicate NonDecreasing(s: seq<int>) {
    forall a, b :: 0 <= a < b < |s| ==> s[a] <= s[b]
  }

  /** From a start before a filled last slot, `NextNonEmpty` never reaches the seed. */
  lemma {:induction false} NextNonEmptySeedUnused(s: seq<int>, j: nat, seed: int, seed': int, noCell: int)
    requires j < |s| && s[|s| - 1] != noCell
    ensures NextNonEmpty(s, j, seed, noCell) == NextNonEmpty(s, j, seed', noCell)
    decreases |s| - j
  {
    if s[j] == noCell {
      NextNonEmptySeedUnused(s, j + 1, seed, seed', noCell);
    }
  }

  /** When the last slot is filled, the post-pass does not depend on its seed. */
  lemma SeedUnusedWhenLastFilled(s: seq<int>, seed: int, seed': int, noCell: int)
    requires |s| > 0 && s[|s| - 1] != noCell
    ensures PostPass(s, seed, noCell) == PostPass(s, seed', noCell)
  {
    forall i | 0 <= i < |s| && s[i] == noCell
      ensures NextNonEmpty(s, i + 1, seed, noCell) == NextNonEmpty(s, i + 1, seed', noCell)
    {
      NextNonEmptySeedUnused(s, i + 1, seed, seed', noCell);
    }
  }

  /**
   * The table is non-decreasing after the post-pass exactly when its filled slots ascend and
   * either its last slot is filled or no filled slot exceeds the seed: trailing empty slots
   * take the seed, so a seed below the last filled value breaks the order.
   */
  lemma PostPassSortedIff(s: seq<int>, seed: int, noCell: int)
    ensures NonDecreasing(PostPass(s, seed, noCell)) <==>
      && FilledSlotsAscend(s, noCell)
      && (|s| == 0 || s[|s| - 1] != noCell || forall a :: 0 <= a < |s| && s[a] != noCell ==> s[a] <= seed)
  {
    var r := PostPass(s, seed, noCell);
    if NonDecreasing(r) {
      forall a, b | 0 <= a < b < |s| && s[a] != noCell && s[b] != noCell
        ensures s[a] <= s[b]
      {
        assert r[a] == s[a] && r[b] == s[b];
      }
      if |s| > 0 && s[|s| - 1] == noCell {
        forall a | 0 <= a < |s| && s[a] != noCell
          ensures s[a] <= seed
        {
          assert r[|s| - 1] == seed;
          assert r[a] == s[a];
        }
      }
    } else if FilledSlotsAscend(s, noCell) {
      if |s| > 0 && s[|s| - 1] != noCell {
        var top := s[|s| - 1];
        assert forall a :: 0 <= a < |s| && s[a] != noCell ==> s[a] <= top;
        SeedUnusedWhenLastFilled(s, seed, top, noCell);
        PostPassSortedBelowSeed(s, top, noCell);
      } else if forall a :: 0 <= a < |s| && s[a] != noCell ==> s[a] <= seed {
        PostPassSortedBelowSeed(s, seed, noCell);
      }
    }
  }
}

/**
 * The global work size of a data-parallel dispatch: the count of items rounded up to a
 * multiple of the work-group size 256, written `((n - 1) / 256 + 1) * 256` in Java `int`s.
 */
module WorkSize {
  import opened JavaInt

  const GroupSize: int := 256

  /** The dispatch size for `n` items, with Java's truncating division and 32-bit wrap-around. */
  function RoundedUp(n: int): int
    requires IsInt(n)
  {
    Wrap((Div(Wrap(n - 1), GroupSize) + 1) * GroupSize)
  }

  /** The same formula with Dafny's Euclidean `/` and no wrap-around, for contrast. */
  function EuclideanRoundedUp(n: int): int {
    ((n - 1) / GroupSize + 1) * GroupSize
  }

  /** Up to `MaxInt - 255` items the dispatch covers every item and overshoots by less than one group. */
  lemma RoundedUpCovers(n: int)
    requires 1 <= n <= MaxInt - (GroupSize - 1)
    ensures RoundedUp(n) % GroupSize == 0
    ensures n <= RoundedUp(n) < n + GroupSize
  {
    var q := Div(n - 1, GroupSize);
    assert q == (n - 1) / GroupSize;
    assert 0 <= q * GroupSize <= n - 1 < q * GroupSize + GroupSize;
    assert (q + 1) * GroupSize <= MaxInt;
  }

  /** No items still gives a full work group, because Java's `-1 / 256` is 0; Euclidean division would give no work at all. */
  lemma RoundedUpOfZero()
    ensures RoundedUp(0) == GroupSize
    ensures EuclideanRoundedUp(0) == 0
  {
    assert Div(-1, GroupSize) == 0;
  }

  /** Every count from 0 to `MaxInt - 255` gets a positive multiple of 256 at least as large as itself. */
  lemma RoundedUpPositive(n: int)
    requires 0 <= n <= MaxInt - (GroupSize - 1)
    ensures RoundedUp(n) > 0 && RoundedUp(n) % GroupSize == 0 && RoundedUp(n) >= n
  {
    if n == 0 {
      RoundedUpOfZero();
    } else {
      RoundedUpCovers(n);
    }
  }

  /** Above `MaxInt - 255` the product wraps around and the work size becomes `MinInt`. */
  lemma RoundedUpOverflows(n: int)
    requires MaxInt - (GroupSize - 1) < n <= MaxInt
    ensures RoundedUp(n) == MinInt
  {
    assert Div(n - 1, GroupSize) == (n - 1) / GroupSize == 0x7f_ffff;
  }
}

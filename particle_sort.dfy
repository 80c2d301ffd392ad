/**
 * The host-side sort of the particle index buffer. The hash kernel writes one
 * (cell id, particle id) pair per particle into a flat `int` buffer; `runSort` reads the
 * pairs out, sorts them by cell id alone with the stable `Collections.sort` and the
 * comparator `MyCompare`, and writes them back in order.
 */
module ParticleSort {

  datatype Pair = Pair(cellId: int, particleId: int)

  /** `MyCompare.compare`: orders two pairs by their cell ids and ignores the particle ids. */
  function Compare(o1: Pair, o2: Pair): (r: int)
    ensures r < 0 <==> o1.cellId < o2.cellId
    ensures r > 0 <==> o1.cellId > o2.cellId
  {
    if o1.cellId < o2.cellId then -1
    else if o1.cellId > o2.cellId then 1
    else 0
  }

  /** `MyCompare` obeys the contract `Collections.sort` relies on: antisymmetric, transitive and consistent on ties. */
  lemma CompareIsTotalPreorder(a: Pair, b: Pair, c: Pair)
    ensures Compare(a, b) == -Compare(b, a)
    ensures Compare(a, b) <= 0 && Compare(b, c) <= 0 ==> Compare(a, c) <= 0
    ensures Compare(a, b) == 0 ==> Compare(a, c) == Compare(b, c)
  {
  }

  /** The pairs stored in a flat buffer, two `int`s each. */
  function Unflatten(s: seq<int>): (ps: seq<Pair>)
    requires |s| % 2 == 0
    ensures |ps| == |s| / 2
    decreases |s|
  {
    if s == [] then [] else [Pair(s[0], s[1])] + Unflatten(s[2..])
  }

  /** The flat buffer holding `ps`, cell id first. */
  function Flatten(ps: seq<Pair>): (s: seq<int>)
    ensures |s| == 2 * |ps|
  {
    if ps == [] then [] else [ps[0].cellId, ps[0].particleId] + Flatten(ps[1..])
  }

  lemma {:induction false} FlattenAt(ps: seq<Pair>, i: int)
    requires 0 <= i < |ps|
    ensures Flatten(ps)[2 * i] == ps[i].cellId && Flatten(ps)[2 * i + 1] == ps[i].particleId
  {
    if i > 0 {
      FlattenAt(ps[1..], i - 1);
    }
  }

  lemma {:induction false} FlattenAppend(ps: seq<Pair>, p: Pair)
    ensures Flatten(ps + [p]) == Flatten(ps) + [p.cellId, p.particleId]
  {
    if ps != [] {
      assert (ps + [p])[1..] == ps[1..] + [p];
      FlattenAppend(ps[1..], p);
    }
  }

  lemma {:induction false} UnflattenAppend(s: seq<int>, a: int, b: int)
    requires |s| % 2 == 0
    ensures Unflatten(s + [a, b]) == Unflatten(s) + [Pair(a, b)]
    decreases |s|
  {
    if s != [] {
      assert (s + [a, b])[2..] == s[2..] + [a, b];
      UnflattenAppend(s[2..], a, b);
    }
  }

  /** Reading the pairs back from the flat buffer gives the pairs that were written. */
  lemma {:induction false} UnflattenFlatten(ps: seq<Pair>)
    ensures Unflatten(Flatten(ps)) == ps
  {
    if ps != [] {
      var s := Flatten(ps);
      assert s[2..] == Flatten(ps[1..]);
      UnflattenFlatten(ps[1..]);
    }
  }

  /** Writing back the pairs read from a flat buffer restores the buffer. */
  lemma {:induction false} FlattenUnflatten(s: seq<int>)
    requires |s| % 2 == 0
    ensures Flatten(Unflatten(s)) == s
    decreases |s|
  {
    if s != [] {
      FlattenUnflatten(s[2..]);
    }
  }

  /** Inserts `p` after every element of `t` that `Compare` does not put above it, scanning from the end. */
  function Insert(t: seq<Pair>, p: Pair): (r: seq<Pair>)
    ensures |r| == |t| + 1
  {
    if t == [] then [p]
    else if Compare(t[|t| - 1], p) <= 0 then t + [p]
    else Insert(t[..|t| - 1], p) + [t[|t| - 1]]
  }

  /** A stable sort of the pairs by cell id: the model of `Collections.sort(particleIndex, new MyCompare())`. */
  function SortByCell(ps: seq<Pair>): (r: seq<Pair>)
    ensures |r| == |ps|
  {
    if ps == [] then [] else Insert(SortByCell(ps[..|ps| - 1]), ps[|ps| - 1])
  }

  ghost predicate SortedByCell(ps: seq<Pair>) {
    forall i, j :: 0 <= i < j < |ps| ==> ps[i].cellId <= ps[j].cellId
  }

  /** The pairs of `ps` whose cell id is `c`, in their order in `ps`. */
  function WithCell(ps: seq<Pair>, c: int): (r: seq<Pair>)
    ensures |r| <= |ps|
  {
    if ps == [] then [] else (if ps[0].cellId == c then [ps[0]] else []) + WithCell(ps[1..], c)
  }

  lemma {:induction false} WithCellAppend(a: seq<Pair>, b: seq<Pair>, c: int)
    ensures WithCell(a + b, c) == WithCell(a, c) + WithCell(b, c)
  {
    if a == [] {
      assert a + b == b;
    } else {
      var h := if a[0].cellId == c then [a[0]] else [];
      assert (a + b)[0] == a[0] && (a + b)[1..] == a[1..] + b;
      assert WithCell(a + b, c) == h + WithCell(a[1..] + b, c);
      WithCellAppend(a[1..], b, c);
      assert WithCell(a, c) == h + WithCell(a[1..], c);
    }
  }

  lemma {:induction false} InsertMultiset(t: seq<Pair>, p: Pair)
    ensures multiset(Insert(t, p)) == multiset(t) + multiset{p}
  {
    if t != [] && Compare(t[|t| - 1], p) > 0 {
      InsertMultiset(t[..|t| - 1], p);
      assert t == t[..|t| - 1] + [t[|t| - 1]];
    }
  }

  /** Inserting below a bound keeps every cell id below it. */
  lemma {:induction false} InsertBounded(t: seq<Pair>, p: Pair, bound: int)
    requires forall i :: 0 <= i < |t| ==> t[i].cellId <= bound
    requires p.cellId <= bound
    ensures forall i :: 0 <= i < |Insert(t, p)| ==> Insert(t, p)[i].cellId <= bound
  {
    if t != [] && Compare(t[|t| - 1], p) > 0 {
      InsertBounded(t[..|t| - 1], p, bound);
    }
  }

  lemma {:induction false} InsertSorted(t: seq<Pair>, p: Pair)
    requires SortedByCell(t)
    ensures SortedByCell(Insert(t, p))
  {
    if t != [] {
      var init, last := t[..|t| - 1], t[|t| - 1];
      if Compare(last, p) > 0 {
        var u := Insert(init, p);
        InsertSorted(init, p);
        InsertBounded(init, p, last.cellId);
        var r := u + [last];
        forall i, j | 0 <= i < j < |r|
          ensures r[i].cellId <= r[j].cellId
        {
          assert r[i] == u[i];
          if j < |u| {
            assert r[j] == u[j];
          }
        }
      } else {
        var r := t + [p];
        forall i, j | 0 <= i < j < |r|
          ensures r[i].cellId <= r[j].cellId
        {
          assert r[i] == t[i];
          if j < |t| {
            assert r[j] == t[j];
          } else {
            assert t[i].cellId <= last.cellId;
          }
        }
      }
    }
  }

  lemma {:induction false} InsertWithCell(t: seq<Pair>, p: Pair, c: int)
    ensures WithCell(Insert(t, p), c) == WithCell(t, c) + WithCell([p], c)
  {
    if t == [] {
    } else if Compare(t[|t| - 1], p) <= 0 {
      WithCellAppend(t, [p], c);
    } else {
      var init, last := t[..|t| - 1], t[|t| - 1];
      assert t == init + [last];
      InsertWithCell(init, p, c);
      WithCellAppend(Insert(init, p), [last], c);
      WithCellAppend(init, [last], c);
      assert WithCell([p], c) == [] || WithCell([last], c) == [];
    }
  }

  /** The sorted pairs are in ascending cell-id order. */
  lemma {:induction false} SortByCellSorted(ps: seq<Pair>)
    ensures SortedByCell(SortByCell(ps))
  {
    if ps != [] {
      SortByCellSorted(ps[..|ps| - 1]);
      InsertSorted(SortByCell(ps[..|ps| - 1]), ps[|ps| - 1]);
    }
  }

  /** The sort is a permutation of its input. */
  lemma {:induction false} SortByCellPermutes(ps: seq<Pair>)
    ensures multiset(SortByCell(ps)) == multiset(ps)
  {
    if ps != [] {
      SortByCellPermutes(ps[..|ps| - 1]);
      InsertMultiset(SortByCell(ps[..|ps| - 1]), ps[|ps| - 1]);
      assert ps == ps[..|ps| - 1] + [ps[|ps| - 1]];
    }
  }

  /** The sort is stable: the pairs of any one cell keep their original relative order. */
  lemma {:induction false} SortByCellStable(ps: seq<Pair>, c: int)
    ensures WithCell(SortByCell(ps), c) == WithCell(ps, c)
  {
    if ps != [] {
      var init, last := ps[..|ps| - 1], ps[|ps| - 1];
      SortByCellStable(init, c);
      InsertWithCell(SortByCell(init), last, c);
      assert ps == init + [last];
      WithCellAppend(init, [last], c);
    }
  }

  lemma SomeCellNonEmpty(ps: seq<Pair>)
    ensures ps != [] <==> exists c :: WithCell(ps, c) != []
  {
    if ps != [] {
      assert WithCell(ps, ps[0].cellId) != [];
    }
  }

  lemma {:induction false} WithCellHead(ps: seq<Pair>, c: int)
    requires WithCell(ps, c) != []
    ensures exists j :: 0 <= j < |ps| && ps[j].cellId == c
  {
    if ps[0].cellId != c {
      WithCellHead(ps[1..], c);
      var j :| 0 <= j < |ps[1..]| && ps[1..][j].cellId == c;
      assert ps[j + 1].cellId == c;
    }
  }

  /**
   * Two sequences that are both sorted by cell id and agree on the order of each cell's pairs
   * are equal: every stable sort by cell id, `Collections.sort` included, gives `SortByCell`'s result.
   */
  lemma {:induction false} StableSortUnique(a: seq<Pair>, b: seq<Pair>)
    requires SortedByCell(a) && SortedByCell(b)
    requires forall c :: WithCell(a, c) == WithCell(b, c)
    ensures a == b
    decreases |a|
  {
    if a == [] || b == [] {
      // a pair in one of them would leave its cell's filter non-empty in the other
      SomeCellNonEmpty(a);
      SomeCellNonEmpty(b);
    } else {
      SortedHeadsEqual(a, b);
      forall c
        ensures WithCell(a[1..], c) == WithCell(b[1..], c)
      {
        var h := if a[0].cellId == c then [a[0]] else [];
        assert WithCell(a, c) == h + WithCell(a[1..], c);
        assert WithCell(b, c) == h + WithCell(b[1..], c);
        assert WithCell(a[1..], c) == WithCell(a, c)[|h|..];
        assert WithCell(b[1..], c) == WithCell(b, c)[|h|..];
      }
      assert SortedByCell(a[1..]) && SortedByCell(b[1..]);
      StableSortUnique(a[1..], b[1..]);
      assert a == [a[0]] + a[1..] && b == [b[0]] + b[1..];
    }
  }

  /** Two such sequences start with the same pair: the first pair of the smallest cell id. */
  lemma SortedHeadsEqual(a: seq<Pair>, b: seq<Pair>)
    requires a != [] && b != []
    requires SortedByCell(a) && SortedByCell(b)
    requires forall c :: WithCell(a, c) == WithCell(b, c)
    ensures a[0] == b[0]
  {
    var m, m' := a[0].cellId, b[0].cellId;
    assert WithCell(a, m) != [];
    WithCellHead(b, m);
    assert WithCell(b, m') != [];
    WithCellHead(a, m');
    assert m == m';
    assert WithCell(a, m)[0] == a[0] && WithCell(b, m)[0] == b[0];
  }

  /** Any arrangement of `ps` that is sorted by cell id and keeps each cell's pairs in order is `SortByCell(ps)`. */
  lemma StableSortIsSortByCell(ps: seq<Pair>, r: seq<Pair>)
    requires SortedByCell(r)
    requires forall c :: WithCell(r, c) == WithCell(ps, c)
    ensures r == SortByCell(ps)
  {
    SortByCellSorted(ps);
    forall c
      ensures WithCell(r, c) == WithCell(SortByCell(ps), c)
    {
      SortByCellStable(ps, c);
    }
    StableSortUnique(r, SortByCell(ps));
  }

  /** The particle index buffer after `runSort`: its first `2 * particleCount` ints sorted as pairs. */
  function SortedIndex(s: seq<int>, particleCount: nat): (r: seq<int>)
    requires 2 * particleCount <= |s|
    ensures |r| == |s|
  {
    Flatten(SortByCell(Unflatten(s[..2 * particleCount]))) + s[2 * particleCount..]
  }

  /**
   * After `runSort` the cell ids at the even positions are non-decreasing, the pairs are a
   * permutation of the original pairs, and the ints past the pairs are untouched.
   */
  lemma SortedIndexProperties(s: seq<int>, particleCount: nat)
    requires 2 * particleCount <= |s|
    ensures var r := SortedIndex(s, particleCount);
      && (forall i, j :: 0 <= i < j < particleCount ==> r[2 * i] <= r[2 * j])
      && multiset(Unflatten(r[..2 * particleCount])) == multiset(Unflatten(s[..2 * particleCount]))
      && r[2 * particleCount..] == s[2 * particleCount..]
  {
    var n := 2 * particleCount;
    var sorted := SortByCell(Unflatten(s[..n]));
    var r := SortedIndex(s, particleCount);
    assert r[..n] == Flatten(sorted);
    SortByCellSorted(Unflatten(s[..n]));
    forall i, j | 0 <= i < j < particleCount
      ensures r[2 * i] <= r[2 * j]
    {
      FlattenAt(sorted, i);
      FlattenAt(sorted, j);
    }
    UnflattenFlatten(sorted);
    SortByCellPermutes(Unflatten(s[..n]));
  }

  /** `runSort` on the host copy of the particle index buffer. */
  method SortParticleIndex(particleInd: array<int>, particleCount: nat)
    requires 2 * particleCount <= particleInd.Length
    modifies particleInd
    ensures particleInd[..] == SortedIndex(old(particleInd[..]), particleCount)
  {
    var particleIndex := ReadPairs(particleInd, particleCount);
    particleIndex := SortByCell(particleIndex);
    WritePairs(particleInd, particleIndex);
  }

  /** The first loop of `runSort`: reads the first `particleCount` pairs out of the flat buffer. */
  method ReadPairs(particleInd: array<int>, particleCount: nat) returns (particleIndex: seq<Pair>)
    requires 2 * particleCount <= particleInd.Length
    ensures particleIndex == Unflatten(particleInd[..2 * particleCount])
  {
    particleIndex := [];
    var i := 0;
    while i < particleCount * 2
      invariant 0 <= i <= particleCount * 2 && i % 2 == 0
      invariant particleIndex == Unflatten(particleInd[..i])
    {
      UnflattenAppend(particleInd[..i], particleInd[i], particleInd[i + 1]);
      assert particleInd[..i + 2] == particleInd[..i] + [particleInd[i], particleInd[i + 1]];
      particleIndex := particleIndex + [Pair(particleInd[i], particleInd[i + 1])];
      i := i + 2;
    }
  }

  /** The write-back loop of `runSort`: stores the pairs in order at the front of the flat buffer. */
  method WritePairs(particleInd: array<int>, particleIndex: seq<Pair>)
    requires 2 * |particleIndex| <= particleInd.Length
    modifies particleInd
    ensures particleInd[..] == Flatten(particleIndex) + old(particleInd[2 * |particleIndex|..])
  {
    ghost var rest := particleInd[2 * |particleIndex|..];
    var index := 0;
    var i := 0;
    while i < |particleIndex|
      invariant 0 <= i <= |particleIndex| && index == 2 * i
      invariant particleInd[..index] == Flatten(particleIndex[..i])
      invariant particleInd[2 * |particleIndex|..] == rest
    {
      var element := [particleIndex[i].cellId, particleIndex[i].particleId];
      var j := 0;
      while j < 2
        invariant 0 <= j <= 2 && index == 2 * i + j
        invariant particleInd[..index] == Flatten(particleIndex[..i]) + element[..j]
        invariant particleInd[2 * |particleIndex|..] == rest
      {
        particleInd[index] := element[j];
        index := index + 1;
        j := j + 1;
      }
      FlattenAppend(particleIndex[..i], particleIndex[i]);
      assert particleIndex[..i + 1] == particleIndex[..i] + [particleIndex[i]];
      i := i + 1;
    }
    assert particleIndex[..i] == particleIndex;
    assert particleInd[..] == particleInd[..index] + particleInd[2 * |particleIndex|..];
  }
}

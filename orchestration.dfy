/**
 * The order of one simulation step as the host issues it: kernel dispatches with their
 * global work sizes, the two host-side stages, the waits on device events that precede
 * them, and the final queue drain.
 */
module Orchestration {
  import opened JavaInt
  import opened WorkSize

  datatype Kernel =
    | ClearBuffers | HashParticles | SortPostPass | Index | FindNeighbors
    | ComputeDensity | ComputeForcesInitPressure | ComputeElasticForces
    | PredictPositions | PredictDensity | CorrectPressure | ComputePressureForceAcceleration
    | Integrate

  /** Stages the host runs itself on buffer contents it has read back. */
  datatype HostStage = Sort | IndexPostPass

  datatype Event =
    | Dispatch(kernel: Kernel, globalWorkSize: int)
    | Host(stage: HostStage)
    | WaitFor(awaited: Kernel)
    | FinishQueue

  /** The predictor-corrector loop runs a fixed number of rounds; it has no convergence test. */
  const MaxIterations: nat := 3

  /** The kernel whose output a host stage reads. */
  function Producer(s: HostStage): Kernel {
    match s
    case Sort => HashParticles
    case IndexPostPass => Index
  }

  /** The number of items a kernel is dispatched over: cells for `Index`, elastic particles for the elastic forces, particles otherwise. */
  function Domain(k: Kernel, particleCount: int, gridCellCount: int, numOfElasticP: int): int {
    if k == Index then gridCellCount
    else if k == ComputeElasticForces then numOfElasticP
    else particleCount
  }

  /** One predictor-corrector round. */
  function Round(w: int): seq<Event> {
    [Dispatch(PredictPositions, w), Dispatch(PredictDensity, w), Dispatch(CorrectPressure, w),
     Dispatch(ComputePressureForceAcceleration, w)]
  }

  function Rounds(k: nat, w: int): seq<Event> {
    if k == 0 then [] else Rounds(k - 1, w) + Round(w)
  }

  /** Hashing, sorting, indexing, neighbour search, density and the non-pressure forces. */
  function PrefixEvents(w: int, cellWork: int): seq<Event> {
    [Dispatch(ClearBuffers, w), Dispatch(HashParticles, w), WaitFor(HashParticles), Host(Sort),
     Dispatch(SortPostPass, w), Dispatch(Index, cellWork), WaitFor(Index), Host(IndexPostPass),
     Dispatch(FindNeighbors, w), Dispatch(ComputeDensity, w), Dispatch(ComputeForcesInitPressure, w)]
  }

  function ElasticEvents(numOfElasticP: int): seq<Event>
    requires IsInt(numOfElasticP)
  {
    if numOfElasticP > 0 then [Dispatch(ComputeElasticForces, RoundedUp(numOfElasticP))] else []
  }

  function SuffixEvents(w: int): seq<Event> {
    [Dispatch(Integrate, w), WaitFor(Integrate), FinishQueue]
  }

  /** Everything one call of `step` issues, in order. */
  function StepEvents(particleCount: int, gridCellCount: int, numOfElasticP: int): seq<Event>
    requires IsInt(particleCount) && IsInt(gridCellCount) && IsInt(numOfElasticP)
  {
    var w := RoundedUp(particleCount);
    PrefixEvents(w, RoundedUp(gridCellCount)) + ElasticEvents(numOfElasticP) + Rounds(MaxIterations, w) + SuffixEvents(w)
  }

  const RoundKernels: set<Kernel> := {PredictPositions, PredictDensity, CorrectPressure, ComputePressureForceAcceleration}

  /** `e` dispatches no kernel of `ks`. */
  ghost predicate Lacks(e: seq<Event>, ks: set<Kernel>) {
    forall i :: 0 <= i < |e| ==> !(e[i].Dispatch? && e[i].kernel in ks)
  }

  /** Every `PredictPositions` dispatch in `e` is followed directly by the other three kernels of its round. */
  ghost predicate RoundsComplete(e: seq<Event>) {
    forall i :: 0 <= i < |e| && e[i].Dispatch? && e[i].kernel == PredictPositions ==>
      i + 3 < |e| && e[i + 1].Dispatch? && e[i + 1].kernel == PredictDensity
      && e[i + 2].Dispatch? && e[i + 2].kernel == CorrectPressure
      && e[i + 3].Dispatch? && e[i + 3].kernel == ComputePressureForceAcceleration
  }

  /** Every host stage in `e` comes right after a wait for its producer, which comes right after the producer's dispatch. */
  ghost predicate HostsAfterWaits(e: seq<Event>) {
    forall i :: 0 <= i < |e| && e[i].Host? ==>
      i >= 2 && e[i - 1] == WaitFor(Producer(e[i].stage))
      && e[i - 2].Dispatch? && e[i - 2].kernel == Producer(e[i].stage)
  }

  /** Every dispatch in `e` has a positive work size that is a multiple of 256 and covers its domain. */
  ghost predicate WorkSizesCover(e: seq<Event>, particleCount: int, gridCellCount: int, numOfElasticP: int) {
    forall i :: 0 <= i < |e| && e[i].Dispatch? ==>
      e[i].globalWorkSize > 0 && e[i].globalWorkSize % 256 == 0
      && e[i].globalWorkSize >= Domain(e[i].kernel, particleCount, gridCellCount, numOfElasticP)
  }

  lemma LacksConcat(a: seq<Event>, b: seq<Event>, ks: set<Kernel>)
    requires Lacks(a, ks) && Lacks(b, ks)
    ensures Lacks(a + b, ks)
  {
  }

  lemma {:induction false} RoundsShape(n: nat, w: int)
    ensures |Rounds(n, w)| == 4 * n
    ensures Lacks(Rounds(n, w), RoundKernels) ==> n == 0
    ensures forall i :: 0 <= i < |Rounds(n, w)| ==>
      (Rounds(n, w)[i].Dispatch? && Rounds(n, w)[i].kernel in RoundKernels && Rounds(n, w)[i].globalWorkSize == w)
    ensures RoundsComplete(Rounds(n, w))
  {
    if n > 0 {
      RoundsShape(n - 1, w);
      assert Rounds(n, w)[4 * n - 4] == Dispatch(PredictPositions, w);
    }
  }

  lemma {:induction false} DispatchCountAppend(a: seq<Event>, b: seq<Event>, k: Kernel)
    ensures DispatchCount(a + b, k) == DispatchCount(a, k) + DispatchCount(b, k)
    decreases |b|
  {
    if b == [] {
      assert a + b == a;
    } else {
      assert (a + b)[..|a + b| - 1] == a + b[..|b| - 1];
      DispatchCountAppend(a, b[..|b| - 1], k);
    }
  }

  /** How many times kernel `k` is dispatched in `e`. */
  function DispatchCount(e: seq<Event>, k: Kernel): nat {
    if e == [] then 0
    else DispatchCount(e[..|e| - 1], k) + (if e[|e| - 1].Dispatch? && e[|e| - 1].kernel == k then 1 else 0)
  }

  lemma {:induction false} DispatchCountNone(e: seq<Event>, k: Kernel)
    requires Lacks(e, {k})
    ensures DispatchCount(e, k) == 0
  {
    if e != [] {
      DispatchCountNone(e[..|e| - 1], k);
    }
  }

  lemma DispatchCountSingle(x: Event, k: Kernel)
    ensures DispatchCount([x], k) == if x.Dispatch? && x.kernel == k then 1 else 0
  {
    assert [x][..0] == [];
  }

  lemma {:induction false} RoundsCount(n: nat, w: int, k: Kernel)
    requires k in RoundKernels
    ensures DispatchCount(Rounds(n, w), k) == n
  {
    if n > 0 {
      DispatchCountAppend(Rounds(n - 1, w), Round(w), k);
      RoundsCount(n - 1, w, k);
      var r := Round(w);
      assert r == [r[0]] + [r[1]] + [r[2]] + [r[3]];
      DispatchCountAppend([r[0]] + [r[1]] + [r[2]], [r[3]], k);
      DispatchCountAppend([r[0]] + [r[1]], [r[2]], k);
      DispatchCountAppend([r[0]], [r[1]], k);
      DispatchCountSingle(r[0], k);
      DispatchCountSingle(r[1], k);
      DispatchCountSingle(r[2], k);
      DispatchCountSingle(r[3], k);
    }
  }

  /** The events before the elastic stage dispatch no round kernel, and each host stage follows its wait. */
  lemma PrefixShape(w: int, cellWork: int)
    ensures var p := PrefixEvents(w, cellWork);
      && Lacks(p, RoundKernels + {ComputeElasticForces, Integrate}) && HostsAfterWaits(p)
      && (exists j :: 0 <= j < |p| && p[j].Dispatch? && p[j].kernel == ComputeForcesInitPressure)
  {
    var p := PrefixEvents(w, cellWork);
    assert p[10] == Dispatch(ComputeForcesInitPressure, w);
  }

  /** The elastic stage and the integration suffix dispatch no round kernel and run nothing on the host. */
  lemma TailShape(numOfElasticP: int, w: int)
    requires IsInt(numOfElasticP)
    ensures var el, s := ElasticEvents(numOfElasticP), SuffixEvents(w);
      && Lacks(el, RoundKernels + {ComputeForcesInitPressure, Integrate})
      && (forall i :: 0 <= i < |el| ==> el[i] == Dispatch(ComputeElasticForces, RoundedUp(numOfElasticP)))
      && Lacks(s, RoundKernels + {ComputeElasticForces, ComputeForcesInitPressure})
      && (forall i :: 0 <= i < |el| + |s| ==> !(el + s)[i].Host?)
  {
  }

  /** The parts of a step other than the predictor-corrector rounds dispatch none of the round kernels. */
  lemma PartsShape(particleCount: int, gridCellCount: int, numOfElasticP: int)
    requires IsInt(particleCount) && IsInt(gridCellCount) && IsInt(numOfElasticP)
    ensures var w := RoundedUp(particleCount);
      var p, el, s := PrefixEvents(w, RoundedUp(gridCellCount)), ElasticEvents(numOfElasticP), SuffixEvents(w);
      && Lacks(p, RoundKernels + {ComputeElasticForces, Integrate}) && HostsAfterWaits(p)
      && Lacks(el, RoundKernels + {ComputeForcesInitPressure, Integrate})
      && (forall i :: 0 <= i < |el| ==> el[i] == Dispatch(ComputeElasticForces, RoundedUp(numOfElasticP)))
      && Lacks(s, RoundKernels + {ComputeElasticForces, ComputeForcesInitPressure})
      && (forall i :: 0 <= i < |el| + |s| ==> !(el + s)[i].Host?)
      && (exists j :: 0 <= j < |p| && p[j].Dispatch? && p[j].kernel == ComputeForcesInitPressure)
  {
    PrefixShape(RoundedUp(particleCount), RoundedUp(gridCellCount));
    TailShape(numOfElasticP, RoundedUp(particleCount));
  }

  /** Each of the four predictor-corrector kernels is dispatched exactly three times per step, whatever the state of the fluid. */
  lemma ThreeRoundsPerStep(particleCount: int, gridCellCount: int, numOfElasticP: int, k: Kernel)
    requires IsInt(particleCount) && IsInt(gridCellCount) && IsInt(numOfElasticP)
    requires k in RoundKernels
    ensures DispatchCount(StepEvents(particleCount, gridCellCount, numOfElasticP), k) == 3
  {
    var w := RoundedUp(particleCount);
    var p, el, s := PrefixEvents(w, RoundedUp(gridCellCount)), ElasticEvents(numOfElasticP), SuffixEvents(w);
    var r := Rounds(MaxIterations, w);
    PartsShape(particleCount, gridCellCount, numOfElasticP);
    DispatchCountNone(p, k);
    DispatchCountNone(el, k);
    DispatchCountNone(s, k);
    RoundsCount(MaxIterations, w, k);
    DispatchCountAppend(p, el, k);
    DispatchCountAppend(p + el, r, k);
    DispatchCountAppend(p + el + r, s, k);
  }

  /** Every `PredictPositions` dispatch of a step is followed directly by the rest of its round, in order. */
  lemma RoundsInOrder(particleCount: int, gridCellCount: int, numOfElasticP: int)
    requires IsInt(particleCount) && IsInt(gridCellCount) && IsInt(numOfElasticP)
    ensures RoundsComplete(StepEvents(particleCount, gridCellCount, numOfElasticP))
  {
    var w := RoundedUp(particleCount);
    var p, el, s := PrefixEvents(w, RoundedUp(gridCellCount)), ElasticEvents(numOfElasticP), SuffixEvents(w);
    var r := Rounds(MaxIterations, w);
    var e := StepEvents(particleCount, gridCellCount, numOfElasticP);
    PartsShape(particleCount, gridCellCount, numOfElasticP);
    RoundsShape(MaxIterations, w);
    var a := p + el;
    assert e == a + r + s;
    forall i | 0 <= i < |e| && e[i].Dispatch? && e[i].kernel == PredictPositions
      ensures i + 3 < |e| && e[i + 1].Dispatch? && e[i + 1].kernel == PredictDensity
        && e[i + 2].Dispatch? && e[i + 2].kernel == CorrectPressure
        && e[i + 3].Dispatch? && e[i + 3].kernel == ComputePressureForceAcceleration
    {
      if |a| <= i < |a| + |r| {
        var m := i - |a|;
        assert e[i] == r[m];
        assert e[i + 1] == r[m + 1] && e[i + 2] == r[m + 2] && e[i + 3] == r[m + 3];
      }
    }
  }

  /** The elastic-force kernel is dispatched in a step exactly when there are elastic particles. */
  lemma ElasticStageIffElasticParticles(particleCount: int, gridCellCount: int, numOfElasticP: int)
    requires IsInt(particleCount) && IsInt(gridCellCount) && IsInt(numOfElasticP)
    ensures DispatchCount(StepEvents(particleCount, gridCellCount, numOfElasticP), ComputeElasticForces) > 0 <==> numOfElasticP > 0
  {
    var w := RoundedUp(particleCount);
    var p, el, s := PrefixEvents(w, RoundedUp(gridCellCount)), ElasticEvents(numOfElasticP), SuffixEvents(w);
    var r := Rounds(MaxIterations, w);
    var k := ComputeElasticForces;
    PartsShape(particleCount, gridCellCount, numOfElasticP);
    RoundsShape(MaxIterations, w);
    DispatchCountNone(p, k);
    DispatchCountNone(r, k);
    DispatchCountNone(s, k);
    DispatchCountAppend(p, el, k);
    DispatchCountAppend(p + el, r, k);
    DispatchCountAppend(p + el + r, s, k);
    assert DispatchCount(el, k) == |el| by {
      if el != [] {
        assert el[..0] == [];
      }
    }
  }

  /** An elastic-force dispatch comes after the forces/init-pressure kernel and before every predictor-corrector round. */
  lemma ElasticStageBeforeRounds(particleCount: int, gridCellCount: int, numOfElasticP: int)
    requires IsInt(particleCount) && IsInt(gridCellCount) && IsInt(numOfElasticP)
    ensures var e := StepEvents(particleCount, gridCellCount, numOfElasticP);
      forall i, j :: 0 <= i < |e| && 0 <= j < |e| && e[i].Dispatch? && e[i].kernel == ComputeElasticForces
        && e[j].Dispatch? && e[j].kernel in {ComputeForcesInitPressure, PredictPositions}
        ==> (e[j].kernel == ComputeForcesInitPressure <==> j < i)
  {
    var w := RoundedUp(particleCount);
    var p, el, s := PrefixEvents(w, RoundedUp(gridCellCount)), ElasticEvents(numOfElasticP), SuffixEvents(w);
    var r := Rounds(MaxIterations, w);
    var e := StepEvents(particleCount, gridCellCount, numOfElasticP);
    var k := ComputeElasticForces;
    PartsShape(particleCount, gridCellCount, numOfElasticP);
    RoundsShape(MaxIterations, w);
    var a := p + el;
    assert e == a + r + s;
    forall i, j | 0 <= i < |e| && 0 <= j < |e| && e[i].Dispatch? && e[i].kernel == k
        && e[j].Dispatch? && e[j].kernel in {ComputeForcesInitPressure, PredictPositions}
      ensures e[j].kernel == ComputeForcesInitPressure <==> j < i
    {
      assert i == |p|;
      if j < |p| {
        assert e[j] == p[j];
      } else if j < |a| + |r| {
        assert e[j] == r[j - |a|];
      }
    }
  }

  /**
   * The two host stages each run right after the host has waited for the kernel whose output
   * they read, and that kernel is the one dispatched just before the wait.
   */
  lemma HostStagesWaitForTheirInput(particleCount: int, gridCellCount: int, numOfElasticP: int)
    requires IsInt(particleCount) && IsInt(gridCellCount) && IsInt(numOfElasticP)
    ensures HostsAfterWaits(StepEvents(particleCount, gridCellCount, numOfElasticP))
  {
    var w := RoundedUp(particleCount);
    var p, el, s := PrefixEvents(w, RoundedUp(gridCellCount)), ElasticEvents(numOfElasticP), SuffixEvents(w);
    var r := Rounds(MaxIterations, w);
    var e := StepEvents(particleCount, gridCellCount, numOfElasticP);
    PartsShape(particleCount, gridCellCount, numOfElasticP);
    RoundsShape(MaxIterations, w);
    var a := p + el;
    assert e == a + r + s;
    forall i | 0 <= i < |e| && e[i].Host?
      ensures i >= 2 && e[i - 1] == WaitFor(Producer(e[i].stage))
        && e[i - 2].Dispatch? && e[i - 2].kernel == Producer(e[i].stage)
    {
      if i < |p| {
        assert e[i] == p[i] && e[i - 1] == p[i - 1] && e[i - 2] == p[i - 2];
      }
    }
  }

  /** The step ends with the integration dispatch, a wait for it and a queue drain; nothing earlier integrates. */
  lemma StepEndsWithIntegrate(particleCount: int, gridCellCount: int, numOfElasticP: int)
    requires IsInt(particleCount) && IsInt(gridCellCount) && IsInt(numOfElasticP)
    ensures var e := StepEvents(particleCount, gridCellCount, numOfElasticP);
      && |e| >= 3 && e[|e| - 1] == FinishQueue && e[|e| - 2] == WaitFor(Integrate)
      && e[|e| - 3].Dispatch? && e[|e| - 3].kernel == Integrate
      && Lacks(e[..|e| - 3], {Integrate})
  {
    var w := RoundedUp(particleCount);
    var p, el, s := PrefixEvents(w, RoundedUp(gridCellCount)), ElasticEvents(numOfElasticP), SuffixEvents(w);
    var r := Rounds(MaxIterations, w);
    var e := StepEvents(particleCount, gridCellCount, numOfElasticP);
    PartsShape(particleCount, gridCellCount, numOfElasticP);
    RoundsShape(MaxIterations, w);
    LacksConcat(p, el, {Integrate});
    LacksConcat(p + el, r, {Integrate});
    assert e[..|e| - 3] == p + el + r;
  }

  /**
   * For counts up to `MaxInt - 255`, every dispatch's work size is a positive multiple of 256
   * that covers the items of its domain.
   */
  lemma DispatchesCoverTheirDomain(particleCount: int, gridCellCount: int, numOfElasticP: int)
    requires 0 <= particleCount <= MaxInt - 255
    requires 0 <= gridCellCount <= MaxInt - 255
    requires 0 <= numOfElasticP <= MaxInt - 255
    ensures WorkSizesCover(StepEvents(particleCount, gridCellCount, numOfElasticP), particleCount, gridCellCount, numOfElasticP)
  {
    var w := RoundedUp(particleCount);
    var p, el, s := PrefixEvents(w, RoundedUp(gridCellCount)), ElasticEvents(numOfElasticP), SuffixEvents(w);
    var r := Rounds(MaxIterations, w);
    var e := StepEvents(particleCount, gridCellCount, numOfElasticP);
    RoundsShape(MaxIterations, w);
    RoundedUpPositive(particleCount);
    RoundedUpPositive(gridCellCount);
    RoundedUpPositive(numOfElasticP);
    var a := p + el;
    assert e == a + r + s;
    forall i | 0 <= i < |e| && e[i].Dispatch?
      ensures e[i].globalWorkSize > 0 && e[i].globalWorkSize % 256 == 0
        && e[i].globalWorkSize >= Domain(e[i].kernel, particleCount, gridCellCount, numOfElasticP)
    {
      if i < |p| {
        assert e[i] == p[i];
      } else if i < |a| {
        assert e[i] == el[i - |p|];
      } else if i < |a| + |r| {
        assert e[i] == r[i - |a|];
      } else {
        assert e[i] == s[i - |a| - |r|];
      }
    }
  }
}

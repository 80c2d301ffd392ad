/**
 * The solver object: the counts and grid it derives from a scene, the buffer-size table, the
 * host copies of the buffers the host code reads and writes, the watch list, and the trace of
 * everything a step issues. Values the device kernels compute enter as parameters.
 */
module SolverService {
  import opened Wrappers
  import opened JavaInt
  import opened WorkSize
  import opened Scene
  import opened Grid
  import opened CellIndex
  import opened ParticleSort
  import opened Orchestration
  import opened Watch

  /** The solver constants the host code reads: `NEIGHBOR_COUNT`, the three type tags and `NO_CELL_ID`. */
  datatype Constants = Constants(neighborCount: nat, tags: TypeTags, noCellId: int)

  /** Writes four consecutive slots, as the load loops do through the mapped pointers. */
  function SetFour(s: seq<real>, index: int, a: real, b: real, c: real, d: real): (r: seq<real>)
    requires 0 <= index && index + 4 <= |s|
    ensures r == s[..index] + [a, b, c, d] + s[index + 4..]
  {
    s[index := a][index + 1 := b][index + 2 := c][index + 3 := d]
  }

  /** `StepEvents` cut at the boundaries of the stage methods of `Solver.Step`. */
  lemma StepEventsByStage(particleCount: int, gridCellCount: int, numOfElasticP: int)
    requires IsInt(particleCount) && IsInt(gridCellCount) && IsInt(numOfElasticP)
    ensures var w, g := RoundedUp(particleCount), RoundedUp(gridCellCount);
      StepEvents(particleCount, gridCellCount, numOfElasticP)
      == PrefixEvents(w, 0)[..5] + PrefixEvents(w, g)[5..] + ElasticEvents(numOfElasticP) + Rounds(MaxIterations, w) + SuffixEvents(w)
  {
    var w, g := RoundedUp(particleCount), RoundedUp(gridCellCount);
    assert PrefixEvents(w, 0)[..5] + PrefixEvents(w, g)[5..] == PrefixEvents(w, g);
  }

  lemma AppendFive<T>(t: seq<T>, a: seq<T>, b: seq<T>, c: seq<T>, d: seq<T>, e: seq<T>)
    ensures t + a + b + c + d + e == t + (a + b + c + d + e)
  {
  }

  /**
   * The particle loop of `setBuffersFromModel`: writes every particle's position and velocity
   * at stride 4 into the freshly allocated buffers and tallies the type tags, boundary first.
   */
  method LoadParticles(ps: seq<Particle>, tags: TypeTags, positionBuffer: seq<real>, velocityBuffer: seq<real>)
    returns (position: seq<real>, velocity: seq<real>, numOfBoundaryP: nat, numOfElasticP: nat, numOfLiquidP: nat)
    requires |positionBuffer| == 4 * |ps| && |velocityBuffer| == 4 * |ps|
    ensures position == Layout(Positions(ps)) && velocity == Layout(Velocities(ps))
    ensures numOfBoundaryP == CountOf(ps, Boundary, tags)
    ensures numOfElasticP == CountOf(ps, Elastic, tags)
    ensures numOfLiquidP == CountOf(ps, Liquid, tags)
  {
    position, velocity := positionBuffer, velocityBuffer;
    numOfBoundaryP, numOfElasticP, numOfLiquidP := 0, 0, 0;
    var index := 0;
    var i := 0;
    while i < |ps|
      invariant 0 <= i <= |ps|
      invariant index == if i == 0 then 0 else 4 * i - 4
      invariant |position| == 4 * |ps| && |velocity| == 4 * |ps|
      invariant position[..4 * i] == Layout(Positions(ps[..i])) && velocity[..4 * i] == Layout(Velocities(ps[..i]))
      invariant numOfBoundaryP == CountOf(ps[..i], Boundary, tags)
      invariant numOfElasticP == CountOf(ps[..i], Elastic, tags)
      invariant numOfLiquidP == CountOf(ps[..i], Liquid, tags)
    {
      if i != 0 {
        index := index + 4;
      }
      var p, v := ps[i].position, ps[i].velocity;
      assert ps[..i + 1] == ps[..i] + [ps[i]];
      assert Positions(ps[..i + 1]) == Positions(ps[..i]) + [p];
      assert Velocities(ps[..i + 1]) == Velocities(ps[..i]) + [v];
      LayoutAppend(Positions(ps[..i]), p);
      LayoutAppend(Velocities(ps[..i]), v);
      ghost var positionBefore, velocityBefore := position, velocity;
      position := SetFour(position, index, p.x, p.y, p.z, p.p);
      velocity := SetFour(velocity, index, v.x, v.y, v.z, v.p);
      assert position[..4 * i + 4] == positionBefore[..4 * i] + [p.x, p.y, p.z, p.p];
      assert velocity[..4 * i + 4] == velocityBefore[..4 * i] + [v.x, v.y, v.z, v.p];
      assert ps[..i + 1][..i] == ps[..i];
      ghost var c := Classify(p.p, tags);
      assert CountOf(ps[..i + 1], Boundary, tags) == numOfBoundaryP + (if c == Boundary then 1 else 0);
      assert CountOf(ps[..i + 1], Elastic, tags) == numOfElasticP + (if c == Elastic then 1 else 0);
      assert CountOf(ps[..i + 1], Liquid, tags) == numOfLiquidP + (if c == Liquid then 1 else 0);
      if p.p == tags.boundary {
        numOfBoundaryP := numOfBoundaryP + 1;
      } else if p.p == tags.elastic {
        numOfElasticP := numOfElasticP + 1;
      } else if p.p == tags.liquid {
        numOfLiquidP := numOfLiquidP + 1;
      }
      i := i + 1;
    }
    assert position == position[..4 * i] && velocity == velocity[..4 * i];
    assert ps[..i] == ps;
  }

  /**
   * The connection loop of `setBuffersFromModel`: fills a buffer of `size` floats with four
   * floats per connection, the fourth a zero pad. The slots past the connections are left
   * as the allocation leaves them, which the contract does not specify.
   */
  method LoadConnections(cs: seq<Connection>, size: int) returns (data: seq<real>)
    requires 4 * |cs| <= size
    ensures |data| == size && data[..4 * |cs|] == PackConnections(cs)
  {
    data := seq(size, _ => 0.0);
    var connIndex := 0;
    var c := 0;
    while c < |cs|
      invariant 0 <= c <= |cs| && connIndex == 4 * c
      invariant |data| == size
      invariant data[..connIndex] == PackConnections(cs[..c])
    {
      var conn := cs[c];
      assert cs[..c + 1] == cs[..c] + [conn];
      data := SetFour(data, connIndex, conn.p1, conn.distance, conn.mysteryValue, 0.0);
      connIndex := connIndex + 4;
      c := c + 1;
    }
    assert cs[..c] == cs;
  }

  class Solver {
    const k: Constants

    var particleCount: int
    var numOfBoundaryP: int
    var numOfElasticP: int
    var numOfLiquidP: int
    var elasticBundlesCount: int
    var gridCellsX: int
    var gridCellsY: int
    var gridCellsZ: int
    var gridCellCount: int

    /** `_buffersSizeMap`. */
    var buffersSize: map<BufferKind, int>

    /** Host views of the device buffers the host code touches. */
    var position: seq<real>
    var velocity: seq<real>
    var particleIndex: seq<int>
    var gridCellIndex: seq<int>
    var gridCellIndexFixedUp: seq<int>
    var elasticConnectionsData: Option<seq<real>>
    var activationSignal: Option<seq<real>>

    var watchListVarNames: seq<String>
    var watching: bool

    /** Every kernel dispatch, wait, host stage and queue drain issued so far. */
    var trace: seq<Event>

    /**
     * The state a load leaves, whether or not its counts add up, and which `step` relies on;
     * the post-pass seed `gridCellCount` is the product of the three axis counts.
     * A freshly constructed solver has not loaded a scene and does not satisfy it.
     */
    ghost predicate Loaded()
      reads this
    {
      && 0 <= particleCount && IsInt(particleCount)
      && 0 <= numOfElasticP <= particleCount
      && 0 <= gridCellCount && IsInt(gridCellCount)
      && gridCellCount == CellCount(gridCellsX, gridCellsY, gridCellsZ)
      && |position| == 4 * particleCount && |velocity| == 4 * particleCount
      && |particleIndex| == 2 * particleCount
      && |gridCellIndex| == gridCellCount + 1 && |gridCellIndexFixedUp| == gridCellCount + 1
    }

    constructor(k: Constants)
      ensures this.k == k
      ensures particleCount == 0 && numOfBoundaryP == 0 && numOfElasticP == 0 && numOfLiquidP == 0
      ensures elasticBundlesCount == 0 && gridCellCount == 0
      ensures buffersSize == map[] && elasticConnectionsData.None? && activationSignal.None?
      ensures watchListVarNames == [] && !watching && trace == []
    {
      this.k := k;
      particleCount, numOfBoundaryP, numOfElasticP, numOfLiquidP := 0, 0, 0, 0;
      elasticBundlesCount := 0;
      gridCellsX, gridCellsY, gridCellsZ, gridCellCount := 0, 0, 0, 0;
      buffersSize := map[];
      position, velocity := [], [];
      particleIndex, gridCellIndex, gridCellIndexFixedUp := [], [], [];
      elasticConnectionsData, activationSignal := None, None;
      watchListVarNames, watching := [], false;
      trace := [];
    }

    /**
     * `allocateBuffers`: enters every size into the table (keeping entries it does not
     * overwrite) and allocates the buffers at those sizes, with unspecified contents.
     */
    method AllocateBuffers()
      requires particleCount >= 0 && gridCellCount >= 0
      modifies this`buffersSize, this`position, this`velocity, this`particleIndex, this`gridCellIndex, this`gridCellIndexFixedUp
      ensures buffersSize == old(buffersSize) + SizeTable(particleCount, gridCellCount, k.neighborCount, elasticBundlesCount)
      ensures |position| == 4 * particleCount && |velocity| == 4 * particleCount
      ensures |particleIndex| == 2 * particleCount
      ensures |gridCellIndex| == gridCellCount + 1 && |gridCellIndexFixedUp| == gridCellCount + 1
    {
      SizeTableEntries(particleCount, gridCellCount, k.neighborCount, elasticBundlesCount);
      buffersSize := buffersSize + SizeTable(particleCount, gridCellCount, k.neighborCount, elasticBundlesCount);
      // The contents of a fresh device buffer are unspecified; the contract promises only the lengths.
      position, velocity := seq(4 * particleCount, _ => 0.0), seq(4 * particleCount, _ => 0.0);
      particleIndex := seq(2 * particleCount, _ => 0);
      gridCellIndex, gridCellIndexFixedUp := seq(gridCellCount + 1, _ => 0), seq(gridCellCount + 1, _ => 0);
    }

    /**
     * `setBuffersFromModel`: derives the counts and the grid from the scene, lays out the
     * particles at stride 4 while tallying their types, packs the elastic connections when
     * there are elastic particles and connections, and finally reports whether the three
     * tallies add up to the particle count (the source throws `IllegalArgumentException`
     * when they do not, after all the buffers have been written). `truncatedSpanX` and its
     * siblings stand for `(int)((max - min) / H)` on each axis.
     */
    method SetBuffersFromModel(m: SceneModel, truncatedSpanX: int, truncatedSpanY: int, truncatedSpanZ: int) returns (countsAddUp: bool)
      requires 0 <= m.numberOfParticles <= |m.particles| && IsInt(m.numberOfParticles)
      requires var cells := CellCount(CellsAlong(truncatedSpanX), CellsAlong(truncatedSpanY), CellsAlong(truncatedSpanZ));
        0 <= cells && IsInt(cells)
      requires var ne := CountOf(m.particles[..m.numberOfParticles], Elastic, k.tags);
        ne > 0 ==> |m.connections| <= ne * k.neighborCount
      modifies this`elasticBundlesCount, this`particleCount, this`numOfBoundaryP, this`numOfElasticP, this`numOfLiquidP
      modifies this`gridCellsX, this`gridCellsY, this`gridCellsZ, this`gridCellCount, this`buffersSize
      modifies this`position, this`velocity, this`particleIndex, this`gridCellIndex, this`gridCellIndexFixedUp
      modifies this`elasticConnectionsData, this`activationSignal
      ensures Loaded()
      ensures var ps := m.particles[..m.numberOfParticles];
        && particleCount == m.numberOfParticles
        && numOfBoundaryP == CountOf(ps, Boundary, k.tags)
        && numOfElasticP == CountOf(ps, Elastic, k.tags)
        && numOfLiquidP == CountOf(ps, Liquid, k.tags)
        && position == Layout(Positions(ps)) && velocity == Layout(Velocities(ps))
      ensures elasticBundlesCount == BundleCount(m)
      ensures gridCellsX == CellsAlong(truncatedSpanX) && gridCellsY == CellsAlong(truncatedSpanY) && gridCellsZ == CellsAlong(truncatedSpanZ)
      ensures gridCellCount == CellCount(gridCellsX, gridCellsY, gridCellsZ)
      ensures var table := old(buffersSize) + SizeTable(particleCount, gridCellCount, k.neighborCount, elasticBundlesCount);
        buffersSize == if numOfElasticP > 0 && |m.connections| > 0
          then table[ElasticConnections := ElasticConnectionsSize(numOfElasticP, k.neighborCount)] else table
      ensures numOfElasticP > 0 && |m.connections| > 0 ==>
        && elasticConnectionsData.Some? && |elasticConnectionsData.value| == ElasticConnectionsSize(numOfElasticP, k.neighborCount)
        && elasticConnectionsData.value[..4 * |m.connections|] == PackConnections(m.connections)
        && activationSignal.Some? && |activationSignal.value| == ActivationSlots(elasticBundlesCount)
      ensures !(numOfElasticP > 0 && |m.connections| > 0) ==>
        elasticConnectionsData == old(elasticConnectionsData) && activationSignal == old(activationSignal)
      ensures countsAddUp <==> particleCount == numOfBoundaryP + numOfElasticP + numOfLiquidP
    {
      EnterScene(m, truncatedSpanX, truncatedSpanY, truncatedSpanZ);
      countsAddUp := LoadScene(m);
    }

    /** The opening of `setBuffersFromModel`: the bundle count, the particle count, zeroed tallies and the grid. */
    method EnterCounts(m: SceneModel, truncatedSpanX: int, truncatedSpanY: int, truncatedSpanZ: int)
      requires 0 <= m.numberOfParticles && IsInt(m.numberOfParticles)
      requires var cells := CellCount(CellsAlong(truncatedSpanX), CellsAlong(truncatedSpanY), CellsAlong(truncatedSpanZ));
        0 <= cells && IsInt(cells)
      modifies this`elasticBundlesCount, this`particleCount, this`numOfBoundaryP, this`numOfElasticP, this`numOfLiquidP
      modifies this`gridCellsX, this`gridCellsY, this`gridCellsZ, this`gridCellCount
      ensures elasticBundlesCount == BundleCount(m) && particleCount == m.numberOfParticles
      ensures numOfBoundaryP == 0 && numOfElasticP == 0 && numOfLiquidP == 0
      ensures gridCellsX == CellsAlong(truncatedSpanX) && gridCellsY == CellsAlong(truncatedSpanY) && gridCellsZ == CellsAlong(truncatedSpanZ)
      ensures gridCellCount == CellCount(gridCellsX, gridCellsY, gridCellsZ) && 0 <= gridCellCount && IsInt(gridCellCount)
    {
      elasticBundlesCount := BundleCount(m);
      particleCount := m.numberOfParticles;
      numOfElasticP, numOfLiquidP, numOfBoundaryP := 0, 0, 0;
      gridCellsX, gridCellsY, gridCellsZ := CellsAlong(truncatedSpanX), CellsAlong(truncatedSpanY), CellsAlong(truncatedSpanZ);
      gridCellCount := CellCount(gridCellsX, gridCellsY, gridCellsZ);
    }

    /**
     * The loops of `setBuffersFromModel` over the allocated buffers: the particles, then the
     * elastic block, then the comparison of the tallies with the particle count.
     */
    method LoadScene(m: SceneModel) returns (countsAddUp: bool)
      requires 0 <= particleCount == m.numberOfParticles <= |m.particles|
      requires |position| == 4 * particleCount && |velocity| == 4 * particleCount
      requires ElasticBundles in buffersSize && buffersSize[ElasticBundles] == elasticBundlesCount
      requires var ne := CountOf(m.particles[..m.numberOfParticles], Elastic, k.tags);
        ne > 0 ==> |m.connections| <= ne * k.neighborCount
      modifies this`numOfBoundaryP, this`numOfElasticP, this`numOfLiquidP, this`position, this`velocity
      modifies this`buffersSize, this`elasticConnectionsData, this`activationSignal
      ensures var ps := m.particles[..m.numberOfParticles];
        && numOfBoundaryP == CountOf(ps, Boundary, k.tags)
        && numOfElasticP == CountOf(ps, Elastic, k.tags)
        && numOfLiquidP == CountOf(ps, Liquid, k.tags)
        && position == Layout(Positions(ps)) && velocity == Layout(Velocities(ps))
      ensures buffersSize == if numOfElasticP > 0 && |m.connections| > 0
        then old(buffersSize)[ElasticConnections := ElasticConnectionsSize(numOfElasticP, k.neighborCount)] else old(buffersSize)
      ensures numOfElasticP > 0 && |m.connections| > 0 ==>
        && elasticConnectionsData.Some? && |elasticConnectionsData.value| == ElasticConnectionsSize(numOfElasticP, k.neighborCount)
        && elasticConnectionsData.value[..4 * |m.connections|] == PackConnections(m.connections)
        && activationSignal.Some? && |activationSignal.value| == ActivationSlots(elasticBundlesCount)
      ensures !(numOfElasticP > 0 && |m.connections| > 0) ==>
        elasticConnectionsData == old(elasticConnectionsData) && activationSignal == old(activationSignal)
      ensures countsAddUp <==> particleCount == numOfBoundaryP + numOfElasticP + numOfLiquidP
    {
      var ps := m.particles[..particleCount];
      var loadedPosition, loadedVelocity, boundary, elastic, liquid := LoadParticles(ps, k.tags, position, velocity);
      position, velocity := loadedPosition, loadedVelocity;
      numOfBoundaryP, numOfElasticP, numOfLiquidP := boundary, elastic, liquid;
      LoadElastic(m.connections);
      countsAddUp := particleCount == numOfBoundaryP + numOfElasticP + numOfLiquidP;
    }

    /**
     * The elastic block of `setBuffersFromModel`, entered only when there are elastic particles
     * and connections: enters the connection buffer's size, fills it, and allocates the
     * activation signal with one slot per bundle but at least one.
     */
    method LoadElastic(cs: seq<Connection>)
      requires numOfElasticP > 0 ==> |cs| <= numOfElasticP * k.neighborCount
      requires ElasticBundles in buffersSize && buffersSize[ElasticBundles] == elasticBundlesCount
      modifies this`buffersSize, this`elasticConnectionsData, this`activationSignal
      ensures numOfElasticP > 0 && |cs| > 0 ==>
        && buffersSize == old(buffersSize)[ElasticConnections := ElasticConnectionsSize(numOfElasticP, k.neighborCount)]
        && elasticConnectionsData.Some? && |elasticConnectionsData.value| == ElasticConnectionsSize(numOfElasticP, k.neighborCount)
        && elasticConnectionsData.value[..4 * |cs|] == PackConnections(cs)
        && activationSignal.Some? && |activationSignal.value| == ActivationSlots(elasticBundlesCount)
      ensures !(numOfElasticP > 0 && |cs| > 0) ==>
        buffersSize == old(buffersSize) && elasticConnectionsData == old(elasticConnectionsData) && activationSignal == old(activationSignal)
    {
      if numOfElasticP > 0 && |cs| > 0 {
        var size := ElasticConnectionsSize(numOfElasticP, k.neighborCount);
        ConnectionsFit(|cs|, numOfElasticP, k.neighborCount);
        buffersSize := buffersSize[ElasticConnections := size];
        var data := LoadConnections(cs, size);
        elasticConnectionsData := Some(data);
        var slots := if buffersSize[ElasticBundles] > 0 then buffersSize[ElasticBundles] else 1;
        activationSignal := Some(seq(slots, _ => 0.0));
      }
    }

    /**
     * The part of `setBuffersFromModel` before its loops: the bundle count, the particle count,
     * zeroed tallies, the grid, and then `allocateBuffers`.
     */
    method EnterScene(m: SceneModel, truncatedSpanX: int, truncatedSpanY: int, truncatedSpanZ: int)
      requires 0 <= m.numberOfParticles && IsInt(m.numberOfParticles)
      requires var cells := CellCount(CellsAlong(truncatedSpanX), CellsAlong(truncatedSpanY), CellsAlong(truncatedSpanZ));
        0 <= cells && IsInt(cells)
      modifies this`elasticBundlesCount, this`particleCount, this`numOfBoundaryP, this`numOfElasticP, this`numOfLiquidP
      modifies this`gridCellsX, this`gridCellsY, this`gridCellsZ, this`gridCellCount, this`buffersSize
      modifies this`position, this`velocity, this`particleIndex, this`gridCellIndex, this`gridCellIndexFixedUp
      ensures elasticBundlesCount == BundleCount(m) && particleCount == m.numberOfParticles
      ensures numOfBoundaryP == 0 && numOfElasticP == 0 && numOfLiquidP == 0
      ensures gridCellsX == CellsAlong(truncatedSpanX) && gridCellsY == CellsAlong(truncatedSpanY) && gridCellsZ == CellsAlong(truncatedSpanZ)
      ensures gridCellCount == CellCount(gridCellsX, gridCellsY, gridCellsZ) && 0 <= gridCellCount && IsInt(gridCellCount)
      ensures buffersSize == old(buffersSize) + SizeTable(particleCount, gridCellCount, k.neighborCount, elasticBundlesCount)
      ensures ElasticBundles in buffersSize && buffersSize[ElasticBundles] == elasticBundlesCount
      ensures |position| == 4 * particleCount && |velocity| == 4 * particleCount
      ensures |particleIndex| == 2 * particleCount
      ensures |gridCellIndex| == gridCellCount + 1 && |gridCellIndexFixedUp| == gridCellCount + 1
    {
      EnterCounts(m, truncatedSpanX, truncatedSpanY, truncatedSpanZ);
      AllocateBuffers();
      SizeTableEntries(particleCount, gridCellCount, k.neighborCount, elasticBundlesCount);
    }

    /** `runSort` on the host copy of the particle index buffer. */
    method RunSort()
      requires 0 <= particleCount && 2 * particleCount <= |particleIndex|
      modifies this`particleIndex, this`trace
      ensures particleIndex == SortedIndex(old(particleIndex), particleCount)
      ensures trace == old(trace) + [Host(Sort)]
    {
      var s := particleIndex;
      var particleInd := new int[|s|](j requires 0 <= j < |s| => s[j]);
      assert particleInd[..] == s;
      SortParticleIndex(particleInd, particleCount);
      particleIndex := particleInd[..];
      trace := trace + [Host(Sort)];
    }

    /** `runIndexPostPass`: reads the cell index buffer and writes its fixed-up copy to the second buffer. */
    method RunIndexPostPass()
      requires |gridCellIndex| == gridCellCount + 1
      modifies this`gridCellIndexFixedUp, this`trace
      ensures gridCellIndexFixedUp == PostPass(gridCellIndex, gridCellCount, k.noCellId)
      ensures trace == old(trace) + [Host(HostStage.IndexPostPass)]
    {
      var s := gridCellIndex;
      var gridNextNonEmptyCellBuffer := new int[|s|](j requires 0 <= j < |s| => s[j]);
      assert gridNextNonEmptyCellBuffer[..] == s;
      CellIndex.IndexPostPass(gridNextNonEmptyCellBuffer, gridCellCount, k.noCellId);
      gridCellIndexFixedUp := gridNextNonEmptyCellBuffer[..];
      trace := trace + [Host(HostStage.IndexPostPass)];
    }

    /**
     * `step`. `hashed` is the particle index buffer as the hash kernel leaves it, `indexed`
     * the cell index buffer as the index kernel leaves it, and `integratedPosition` and
     * `integratedVelocity` the buffers as the integration kernel leaves them.
     */
    method Step(hashed: seq<int>, indexed: seq<int>, integratedPosition: seq<real>, integratedVelocity: seq<real>)
      requires Loaded()
      requires |hashed| == 2 * particleCount && |indexed| == gridCellCount + 1
      requires |integratedPosition| == 4 * particleCount && |integratedVelocity| == 4 * particleCount
      modifies this`trace, this`particleIndex, this`gridCellIndex, this`gridCellIndexFixedUp, this`position, this`velocity
      ensures Loaded()
      ensures trace == old(trace) + StepEvents(particleCount, gridCellCount, numOfElasticP)
      ensures particleIndex == SortedIndex(hashed, particleCount)
      ensures gridCellIndex == indexed && gridCellIndexFixedUp == PostPass(indexed, gridCellCount, k.noCellId)
      ensures position == integratedPosition && velocity == integratedVelocity
    {
      var w := RoundedUp(particleCount);
      var gridCellCountRoundedUp := RoundedUp(gridCellCount);
      ghost var t0 := trace;
      RunSortStage(hashed, w);
      ghost var t1 := trace;
      RunIndexStage(indexed, w, gridCellCountRoundedUp);
      ghost var t2 := trace;
      if numOfElasticP > 0 {
        var numOfElasticPRoundedUp := RoundedUp(numOfElasticP);
        trace := trace + [Dispatch(ComputeElasticForces, numOfElasticPRoundedUp)];
      }
      ghost var t3 := trace;
      assert t3 == t2 + ElasticEvents(numOfElasticP);
      RunPredictorCorrector(w);
      ghost var t4 := trace;
      RunIntegrateStage(integratedPosition, integratedVelocity, w);
      StepEventsByStage(particleCount, gridCellCount, numOfElasticP);
      AppendFive(t0, PrefixEvents(w, 0)[..5], PrefixEvents(w, gridCellCountRoundedUp)[5..],
                 ElasticEvents(numOfElasticP), Rounds(MaxIterations, w), SuffixEvents(w));
    }

    /** The part of `step` up to the sort post-pass: clear, hash, wait, sort on the host, post-pass. */
    method RunSortStage(hashed: seq<int>, w: int)
      requires 0 <= particleCount && |hashed| == 2 * particleCount
      modifies this`particleIndex, this`trace
      ensures particleIndex == SortedIndex(hashed, particleCount)
      ensures trace == old(trace) + PrefixEvents(w, 0)[..5]  // the first five events do not involve the cell work size
    {
      ghost var start := trace;
      trace := trace + [Dispatch(ClearBuffers, w)];
      trace := trace + [Dispatch(HashParticles, w)];
      particleIndex := hashed;
      trace := trace + [WaitFor(HashParticles)];
      RunSort();
      trace := trace + [Dispatch(SortPostPass, w)];
      assert trace == start + PrefixEvents(w, 0)[..5];
    }

    /** The part of `step` from the index kernel to the forces/init-pressure kernel. */
    method RunIndexStage(indexed: seq<int>, w: int, cellWork: int)
      requires |indexed| == gridCellCount + 1
      modifies this`gridCellIndex, this`gridCellIndexFixedUp, this`trace
      ensures gridCellIndex == indexed && gridCellIndexFixedUp == PostPass(indexed, gridCellCount, k.noCellId)
      ensures trace == old(trace) + PrefixEvents(w, cellWork)[5..]
    {
      ghost var start := trace;
      trace := trace + [Dispatch(Index, cellWork)];
      gridCellIndex := indexed;
      trace := trace + [WaitFor(Index)];
      RunIndexPostPass();
      trace := trace + [Dispatch(FindNeighbors, w)];
      trace := trace + [Dispatch(ComputeDensity, w)];
      trace := trace + [Dispatch(ComputeForcesInitPressure, w)];
      assert trace == start + PrefixEvents(w, cellWork)[5..];
    }

    /** The integration kernel at the end of `step` and the final wait on the queue. */
    method RunIntegrateStage(integratedPosition: seq<real>, integratedVelocity: seq<real>, w: int)
      modifies this`position, this`velocity, this`trace
      ensures position == integratedPosition && velocity == integratedVelocity
      ensures trace == old(trace) + SuffixEvents(w)
    {
      trace := trace + [Dispatch(Integrate, w)];
      position, velocity := integratedPosition, integratedVelocity;
      trace := trace + [WaitFor(Integrate)];
      trace := trace + [FinishQueue];
    }

    /** The predictor-corrector loop of `step`: a do-while over `iter` that stops after `maxIterations` rounds. */
    method RunPredictorCorrector(w: int)
      modifies this`trace
      ensures trace == old(trace) + Rounds(MaxIterations, w)
    {
      ghost var beforeLoop := trace;
      var iter := 0;
      var maxIterations := 3;
      while true
        invariant 0 <= iter < maxIterations == MaxIterations
        invariant trace == beforeLoop + Rounds(iter, w)
        decreases maxIterations - iter
      {
        trace := trace + [Dispatch(PredictPositions, w)];
        trace := trace + [Dispatch(PredictDensity, w)];
        trace := trace + [Dispatch(CorrectPressure, w)];
        trace := trace + [Dispatch(ComputePressureForceAcceleration, w)];
        assert trace == beforeLoop + Rounds(iter + 1, w);
        iter := iter + 1;
        if !(iter < maxIterations) {
          break;
        }
      }

    }

    method AddWatchVariables(variableNames: seq<String>)
      modifies this`watchListVarNames
      ensures watchListVarNames == old(watchListVarNames) + variableNames
    {
      watchListVarNames := watchListVarNames + variableNames;
    }

    method ClearWatchVariables()
      modifies this`watchListVarNames
      ensures watchListVarNames == []
    {
      watchListVarNames := [];
    }

    method StartWatch()
      modifies this`watching
      ensures watching
    {
      watching := true;
    }

    method StopWatch()
      modifies this`watching
      ensures !watching
    {
      watching := false;
    }

    /**
     * The name resolution `updateStateTreeForWatch` performs when the watch tree is still
     * empty, given the paths each watchable variable offers.
     */
    method ResolveWatches(varPaths: seq<seq<String>>) returns (r: Result<seq<Watched>, WatchError>)
      ensures r == MatchVariables(varPaths, watchListVarNames, particleCount)
    {
      r := ResolveWatchList(varPaths, watchListVarNames, particleCount);
    }
  }
}

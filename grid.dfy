/**
 * The uniform grid and the buffer-size table. Each axis has `(int)((max - min) / H) + 1`
 * cells; the float quotient is computed by the caller and enters here already truncated.
 * The table gives the length of every device buffer from the particle and cell counts.
 */
module Grid {
  import opened Scene
  import opened ParticleSort

  /** Cells along one axis, from the truncated quotient `(int)((max - min) / H)`. */
  function CellsAlong(truncatedSpan: int): int {
    truncatedSpan + 1
  }

  /** `_gridCellCount`: the product of the cells along the three axes. */
  function CellCount(cellsX: int, cellsY: int, cellsZ: int): int {
    cellsX * cellsY * cellsZ
  }

  /** A box with non-negative extent has at least one cell on every axis, and the grid holds at least as many cells as any axis. */
  lemma GridNonEmpty(qx: int, qy: int, qz: int)
    requires qx >= 0 && qy >= 0 && qz >= 0
    ensures var x, y, z := CellsAlong(qx), CellsAlong(qy), CellsAlong(qz);
      x >= 1 && y >= 1 && z >= 1 && CellCount(x, y, z) >= x && CellCount(x, y, z) >= y && CellCount(x, y, z) >= z
  {
    var x, y, z := CellsAlong(qx), CellsAlong(qy), CellsAlong(qz);
    assert x * y >= x && x * y >= y;
    assert x * y * z >= x * y && x * y * z >= z;
  }

  /**
   * Taking real division in place of the float one, the `floor(span / h) + 1` cells of width
   * `h` cover the whole span: a point at distance `d` from the minimum falls in a cell whose
   * index is in range.
   */
  lemma CellsCoverSpan(span: real, h: real, d: real)
    requires h > 0.0 && 0.0 <= d <= span
    ensures 0 <= (d / h).Floor < CellsAlong((span / h).Floor)
  {
    assert d / h <= span / h by {
      assert span / h - d / h == (span - d) / h;
    }
  }

  datatype BufferKind =
    | Acceleration | GridCellIndex | GridCellIndexFixed | NeighborMap | ParticleIndex
    | ParticleIndexBack | Position | Pressure | Rho | SortedPosition | SortedVelocity | Velocity
    | ElasticBundles | ElasticConnections

  /** The buffers `allocateBuffers` enters in the size table: all but the elastic connections. */
  const TableKinds: set<BufferKind> := {
    Acceleration, GridCellIndex, GridCellIndexFixed, NeighborMap, ParticleIndex, ParticleIndexBack,
    Position, Pressure, Rho, SortedPosition, SortedVelocity, Velocity, ElasticBundles}

  /** The size `allocateBuffers` enters for buffer `b`. */
  function TableSize(b: BufferKind, particleCount: int, gridCellCount: int, neighborCount: int, elasticBundles: int): int {
    match b
    case Acceleration => particleCount * 4 * 2
    case GridCellIndex => gridCellCount + 1
    case GridCellIndexFixed => gridCellCount + 1
    case NeighborMap => particleCount * neighborCount * 2
    case ParticleIndex => particleCount * 2
    case ParticleIndexBack => particleCount
    case Position => particleCount * 4
    case Pressure => particleCount * 4
    case Rho => particleCount * 2
    case SortedPosition => particleCount * 4 * 2
    case SortedVelocity => particleCount * 4
    case Velocity => particleCount * 4
    case ElasticBundles => elasticBundles
    case ElasticConnections => 0
  }

  /** `allocateBuffers`' size table; the elastic-connection entry is added later, only when there are connections. */
  function SizeTable(particleCount: int, gridCellCount: int, neighborCount: int, elasticBundles: int): map<BufferKind, int> {
    map b | b in TableKinds :: TableSize(b, particleCount, gridCellCount, neighborCount, elasticBundles)
  }

  /** The entries of the table the host code relies on. */
  lemma SizeTableEntries(particleCount: int, gridCellCount: int, neighborCount: int, elasticBundles: int)
    ensures var t := SizeTable(particleCount, gridCellCount, neighborCount, elasticBundles);
      && Position in t && Velocity in t && ParticleIndex in t && GridCellIndex in t && GridCellIndexFixed in t
      && ElasticBundles in t && ElasticConnections !in t
      && t[Position] == 4 * particleCount && t[Velocity] == 4 * particleCount
      && t[ParticleIndex] == 2 * particleCount
      && t[GridCellIndex] == gridCellCount + 1 && t[GridCellIndexFixed] == gridCellCount + 1
      && t[ElasticBundles] == elasticBundles
  {
  }

  /** The elastic-connection buffer size: `NEIGHBOR_COUNT` connections of four floats for each elastic particle. */
  function ElasticConnectionsSize(numOfElasticP: int, neighborCount: int): int {
    numOfElasticP * neighborCount * 4
  }

  /**
   * The table fits the host code that uses it: the stride-4 layout of `particleCount`
   * vectors fills the position and velocity buffers exactly, the flattened pairs `runSort`
   * writes fill the particle index buffer, the post-pass's slots 0 to `gridCellCount` fill
   * both cell index buffers, and every buffer has a non-negative size.
   */
  lemma SizeTableFitsAccesses(vs: seq<Vector4>, pairs: seq<Pair>, gridCellCount: nat, neighborCount: nat, elasticBundles: nat)
    requires |pairs| == |vs|
    ensures var t := SizeTable(|vs|, gridCellCount, neighborCount, elasticBundles);
      && ElasticConnections !in t
      && (forall b :: b in t ==> t[b] >= 0)
      && |Layout(vs)| == t[Position] == t[Velocity]
      && |Flatten(pairs)| == t[ParticleIndex]
      && gridCellCount < t[GridCellIndex] == t[GridCellIndexFixed] == gridCellCount + 1
  {
    var t := SizeTable(|vs|, gridCellCount, neighborCount, elasticBundles);
    assert |vs| * neighborCount * 2 >= 0;
    forall b | b in t
      ensures t[b] >= 0
    {
    }
  }

  /** The connections fit their buffer exactly when there are at most `NEIGHBOR_COUNT` per elastic particle. */
  lemma ConnectionsFit(numConnections: nat, numOfElasticP: nat, neighborCount: nat)
    ensures 4 * numConnections <= ElasticConnectionsSize(numOfElasticP, neighborCount)
            <==> numConnections <= numOfElasticP * neighborCount
  {
  }
}

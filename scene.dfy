/**
 * The scene model the solver loads and the host-side bookkeeping of `setBuffersFromModel`:
 * classifying particles by the type tag in the fourth position slot, the stride-4 layout of
 * the position and velocity buffers, the packing of elastic connections and the size of the
 * activation-signal buffer.
 */
module Scene {
  import opened Wrappers

  /** A position or velocity as the model stores it: x, y, z and a fourth slot (the type tag for positions). */
  datatype Vector4 = Vector4(x: real, y: real, z: real, p: real)

  datatype Particle = Particle(position: Vector4, velocity: Vector4)

  /** An elastic connection: the partner particle, the rest distance and a third per-connection value. */
  datatype Connection = Connection(p1: real, distance: real, mysteryValue: real)

  datatype SceneModel = SceneModel(
    xMin: real, xMax: real, yMin: real, yMax: real, zMin: real, zMax: real,
    numberOfParticles: int,
    particles: seq<Particle>,
    connections: seq<Connection>,
    elasticBundles: Option<int>)

  /** The tag values the type slot is compared against (the solver's `BOUNDARY_TYPE`, `ELASTIC_TYPE`, `LIQUID_TYPE`). */
  datatype TypeTags = TypeTags(boundary: real, elastic: real, liquid: real)

  datatype ParticleType = Boundary | Elastic | Liquid | Untyped

  /**
   * The if/else-if chain of the load loop: boundary is tested first, then elastic, then liquid.
   * Each `ensures` names one branch of that chain, with the tests of the branches before it negated.
   */
  function Classify(tag: real, tags: TypeTags): (t: ParticleType)
    ensures t == Boundary <==> tag == tags.boundary
    ensures t == Elastic <==> tag != tags.boundary && tag == tags.elastic
    ensures t == Liquid <==> tag != tags.boundary && tag != tags.elastic && tag == tags.liquid
  {
    if tag == tags.boundary then Boundary
    else if tag == tags.elastic then Elastic
    else if tag == tags.liquid then Liquid
    else Untyped
  }

  /** How many of `ps` the load loop classifies as `t`. */
  function CountOf(ps: seq<Particle>, t: ParticleType, tags: TypeTags): (n: nat)
    ensures n <= |ps|
  {
    if ps == [] then 0
    else CountOf(ps[..|ps| - 1], t, tags) + (if Classify(ps[|ps| - 1].position.p, tags) == t then 1 else 0)
  }

  /** The four classes partition the particles. */
  lemma {:induction false} CountsPartition(ps: seq<Particle>, tags: TypeTags)
    ensures CountOf(ps, Boundary, tags) + CountOf(ps, Elastic, tags) + CountOf(ps, Liquid, tags)
            + CountOf(ps, Untyped, tags) == |ps|
  {
    if ps != [] {
      CountsPartition(ps[..|ps| - 1], tags);
    }
  }

  lemma {:induction false} CountZeroMeansNone(ps: seq<Particle>, t: ParticleType, tags: TypeTags)
    ensures CountOf(ps, t, tags) == 0 <==> forall i :: 0 <= i < |ps| ==> Classify(ps[i].position.p, tags) != t
  {
    if ps != [] {
      CountZeroMeansNone(ps[..|ps| - 1], t, tags);
      assert forall i :: 0 <= i < |ps| - 1 ==> ps[..|ps| - 1][i] == ps[i];
    }
  }

  /**
   * The boundary, elastic and liquid counts add up to the number of particles exactly when
   * every particle's type slot holds one of the three tags: the load's consistency check
   * fails exactly when some particle has a fourth kind of tag.
   */
  lemma CountsAddUpIffAllTyped(ps: seq<Particle>, tags: TypeTags)
    ensures CountOf(ps, Boundary, tags) + CountOf(ps, Elastic, tags) + CountOf(ps, Liquid, tags) == |ps|
            <==> forall i :: 0 <= i < |ps| ==> Classify(ps[i].position.p, tags) != Untyped
  {
    CountsPartition(ps, tags);
    CountZeroMeansNone(ps, Untyped, tags);
  }

  /** Slot `c` (0 to 3) of a vector: x, y, z, then the fourth slot. */
  function Component(v: Vector4, c: int): real
    requires 0 <= c < 4
  {
    if c == 0 then v.x else if c == 1 then v.y else if c == 2 then v.z else v.p
  }

  /** The float buffer holding `vs` at stride 4: vector `i` in slots `4 * i` to `4 * i + 3`. */
  function Layout(vs: seq<Vector4>): (s: seq<real>)
    ensures |s| == 4 * |vs|
  {
    seq(4 * |vs|, j requires 0 <= j < 4 * |vs| => Component(vs[j / 4], j % 4))
  }

  /** The vectors stored at stride 4 in a float buffer. */
  function Unlayout(s: seq<real>): (vs: seq<Vector4>)
    requires |s| % 4 == 0
    ensures |vs| == |s| / 4
  {
    seq(|s| / 4, i requires 0 <= i < |s| / 4 => Vector4(s[4 * i], s[4 * i + 1], s[4 * i + 2], s[4 * i + 3]))
  }

  /** Vector `i` sits in slots `4 * i` to `4 * i + 3` of its buffer. */
  lemma LayoutAt(vs: seq<Vector4>, i: int, c: int)
    requires 0 <= i < |vs| && 0 <= c < 4
    ensures Layout(vs)[4 * i + c] == Component(vs[i], c)
  {
    assert (4 * i + c) / 4 == i && (4 * i + c) % 4 == c;
  }

  /** Laying out one more vector appends its four slots. */
  lemma LayoutAppend(vs: seq<Vector4>, v: Vector4)
    ensures Layout(vs + [v]) == Layout(vs) + [v.x, v.y, v.z, v.p]
  {
    var a, b := Layout(vs + [v]), Layout(vs) + [v.x, v.y, v.z, v.p];
    forall j | 0 <= j < |a|
      ensures a[j] == b[j]
    {
      var q, c := j / 4, j % 4;
      assert j == 4 * q + c;
      if q < |vs| {
        LayoutAt(vs, q, c);
      }
    }
  }

  /** Reading the buffer back at stride 4 gives the vectors that were laid out. */
  lemma UnlayoutLayout(vs: seq<Vector4>)
    ensures Unlayout(Layout(vs)) == vs
  {
    var s := Layout(vs);
    var u := Unlayout(s);
    assert |u| == |vs|;
    forall i | 0 <= i < |vs|
      ensures u[i] == vs[i]
    {
      LayoutAt(vs, i, 0);
      LayoutAt(vs, i, 1);
      LayoutAt(vs, i, 2);
      LayoutAt(vs, i, 3);
      assert u[i] == Vector4(s[4 * i], s[4 * i + 1], s[4 * i + 2], s[4 * i + 3]);
    }
  }

  function Positions(ps: seq<Particle>): (vs: seq<Vector4>)
    ensures |vs| == |ps| && forall i :: 0 <= i < |ps| ==> vs[i] == ps[i].position
  {
    seq(|ps|, i requires 0 <= i < |ps| => ps[i].position)
  }

  function Velocities(ps: seq<Particle>): (vs: seq<Vector4>)
    ensures |vs| == |ps| && forall i :: 0 <= i < |ps| ==> vs[i] == ps[i].velocity
  {
    seq(|ps|, i requires 0 <= i < |ps| => ps[i].velocity)
  }

  /** The type tag of particle `i` is slot `4 * i + 3` of the position buffer. */
  lemma TypeTagSlot(ps: seq<Particle>, i: int)
    requires 0 <= i < |ps|
    ensures Layout(Positions(ps))[4 * i + 3] == ps[i].position.p
  {
    LayoutAt(Positions(ps), i, 3);
  }

  /** The four floats a connection occupies in the elastic-connection buffer; the last one is padding. */
  function ConnectionSlots(conn: Connection): seq<real> {
    [conn.p1, conn.distance, conn.mysteryValue, 0.0]
  }

  /** The elastic-connection buffer contents: four floats per connection, in order. */
  function PackConnections(cs: seq<Connection>): (s: seq<real>)
    ensures |s| == 4 * |cs|
  {
    if cs == [] then [] else PackConnections(cs[..|cs| - 1]) + ConnectionSlots(cs[|cs| - 1])
  }

  /** Connection `k` sits in slots `4 * k` to `4 * k + 3`, padded with a zero. */
  lemma {:induction false} PackConnectionsAt(cs: seq<Connection>, k: int)
    requires 0 <= k < |cs|
    ensures PackConnections(cs)[4 * k .. 4 * k + 4] == [cs[k].p1, cs[k].distance, cs[k].mysteryValue, 0.0]
  {
    if k < |cs| - 1 {
      PackConnectionsAt(cs[..|cs| - 1], k);
      assert PackConnections(cs)[..4 * (|cs| - 1)] == PackConnections(cs[..|cs| - 1]);
    }
  }

  /** The connections read back from a packed buffer. */
  function UnpackConnections(s: seq<real>): (cs: seq<Connection>)
    requires |s| % 4 == 0
    ensures |cs| == |s| / 4
  {
    seq(|s| / 4, k requires 0 <= k < |s| / 4 => Connection(s[4 * k], s[4 * k + 1], s[4 * k + 2]))
  }

  /** Unpacking the connection buffer gives back the connections of the model. */
  lemma UnpackPack(cs: seq<Connection>)
    ensures UnpackConnections(PackConnections(cs)) == cs
  {
    var s := PackConnections(cs);
    forall k | 0 <= k < |cs|
      ensures UnpackConnections(s)[k] == cs[k]
    {
      PackConnectionsAt(cs, k);
      assert s[4 * k .. 4 * k + 4][0] == s[4 * k];
      assert s[4 * k .. 4 * k + 4][1] == s[4 * k + 1];
      assert s[4 * k .. 4 * k + 4][2] == s[4 * k + 2];
    }
  }

  /** The bundle count the solver reads from the model: zero when the model has none. */
  function BundleCount(m: SceneModel): int {
    match m.elasticBundles
    case None => 0
    case Some(n) => n
  }

  /** Slots of the activation-signal buffer: one per bundle, but never fewer than one. */
  function ActivationSlots(elasticBundles: int): (n: int)
    ensures n >= 1 && n >= elasticBundles
    ensures n == elasticBundles || (n == 1 && elasticBundles <= 0)
  {
    if elasticBundles > 0 then elasticBundles else 1
  }
}

/**
  The home-section particle cloud of script.js: the initial scatter of the
  position buffer (`initHomeScene`) and the per-frame proximity pass
  (`connectParticles`) that turns every pair of points closer than
  `maxDistance` into one line segment.

  The position buffer is flat: point `p` occupies offsets `3 * p`,
  `3 * p + 1` and `3 * p + 2`. The specification below speaks of point
  indices; the loops, like the source, step through offsets.

  Coordinates are `real`; the source stores them as 32-bit floats.
  The pass compares `sqrt(d2) < 15`; the model compares `d2 < 15 * 15`,
  which `SquaredThreshold` shows to be the same test.
*/
module Particles {

  /** `particleCount` in `initHomeScene`. */
  const ParticleCount: nat := 200
  /** Coordinates per particle in the flat position buffer. */
  const Stride: nat := 3
  /** `maxDistance` in `connectParticles`. */
  const MaxDistance: real := 15.0
  /** Side of the cube the particles are scattered in: `(r - 0.5) * 150`. */
  const Spread: real := 150.0

  // ---------------------------------------------------------------------------
  // Initial scatter
  // ---------------------------------------------------------------------------

  /** One coordinate of the initial fill from a random draw `r` in [0, 1). */
  function Scatter(r: real): (x: real)
    requires 0.0 <= r < 1.0
    ensures -Spread / 2.0 <= x < Spread / 2.0
  {
    (r - 0.5) * Spread
  }

  // ---------------------------------------------------------------------------
  // Specification of the proximity pass
  // ---------------------------------------------------------------------------

  function Square(x: real): real
  {
    x * x
  }

  /** Squared Euclidean distance between the triples at offsets `i` and `j`. */
  function SqDist(s: seq<real>, i: nat, j: nat): real
    requires i + 2 < |s| && j + 2 < |s|
  {
    var dx := s[i] - s[j];
    var dy := s[i + 1] - s[j + 1];
    var dz := s[i + 2] - s[j + 2];
    Square(dx) + Square(dy) + Square(dz)
  }

  /** A connection found by the pass: the indices of its two points. */
  datatype Edge = Edge(a: nat, b: nat)

  /** An edge whose second point comes after its first and is a whole triple. */
  predicate Whole(s: seq<real>, e: Edge)
  {
    e.a < e.b && 3 * e.b + 2 < |s|
  }

  /**
    Whether the pass connects point `a` to the later point `b`. When `b`
    is a trailing partial triple the source reads `undefined`, the
    distance is NaN and the comparison is false: such a point is never
    connected.
  */
  predicate Near(s: seq<real>, a: nat, b: nat)
  {
    Whole(s, Edge(a, b)) && SqDist(s, 3 * a, 3 * b) < MaxDistance * MaxDistance
  }

  /**
    How many times each loop of the pass turns over a buffer of `n`
    coordinates: one turn per started triple.
  */
  function PointCount(n: nat): nat
  {
    if n == 0 then 0 else if n <= 3 then 1 else 1 + PointCount(n - 3)
  }

  /** The line segment drawn for one edge: point `a`'s triple, then point `b`'s. */
  function Segment(s: seq<real>, e: Edge): seq<real>
    requires Whole(s, e)
  {
    s[3 * e.a..3 * e.a + 3] + s[3 * e.b..3 * e.b + 3]
  }

  /**
    What one turn of the inner loop pushes for the pair (a, b): the three
    coordinates of `a`, then the three of `b`, or nothing.
  */
  function PairVertices(s: seq<real>, a: nat, b: nat): seq<real>
  {
    if Near(s, a, b) then [s[3 * a], s[3 * a + 1], s[3 * a + 2], s[3 * b], s[3 * b + 1], s[3 * b + 2]] else []
  }

  /** What the inner loop for point `a` has pushed once it reaches point `b`. */
  function PointVertices(s: seq<real>, a: nat, b: nat): seq<real>
    decreases b
  {
    if b <= a + 1 then [] else PointVertices(s, a, b - 1) + PairVertices(s, a, b - 1)
  }

  /** What the outer loop has pushed once it reaches point `a`. */
  function VerticesBefore(s: seq<real>, a: nat): seq<real>
  {
    if a == 0 then [] else VerticesBefore(s, a - 1) + PointVertices(s, a - 1, PointCount(|s|))
  }

  /** The `vertices` list `connectParticles` hands to the line geometry. */
  function Connections(s: seq<real>): seq<real>
  {
    VerticesBefore(s, PointCount(|s|))
  }

  /** The pair (a, b) as an edge when the pass connects it. */
  function PairEdges(s: seq<real>, a: nat, b: nat): (es: seq<Edge>)
    ensures forall e <- es :: e.a == a && e.b == b && Whole(s, e)
  {
    if Near(s, a, b) then [Edge(a, b)] else []
  }

  /** The pairs the inner loop for point `a` connects before it reaches point `b`. */
  function PointEdges(s: seq<real>, a: nat, b: nat): (es: seq<Edge>)
    ensures forall e <- es :: e.a == a && e.b < b && Whole(s, e)
    decreases b
  {
    if b <= a + 1 then [] else PointEdges(s, a, b - 1) + PairEdges(s, a, b - 1)
  }

  /** The pairs the outer loop connects before it reaches point `a`. */
  function EdgesBefore(s: seq<real>, a: nat): (es: seq<Edge>)
    ensures forall e <- es :: e.a < a && Whole(s, e)
  {
    if a == 0 then [] else EdgesBefore(s, a - 1) + PointEdges(s, a - 1, PointCount(|s|))
  }

  /** Every pair the pass over buffer `s` connects, in the order it is found. */
  function NearEdges(s: seq<real>): seq<Edge>
  {
    EdgesBefore(s, PointCount(|s|))
  }

  /** The coordinates pushed for a sequence of edges, in order. */
  function Segments(s: seq<real>, es: seq<Edge>): seq<real>
    requires forall e <- es :: Whole(s, e)
  {
    if es == [] then [] else Segment(s, es[0]) + Segments(s, es[1..])
  }

  /** Lexicographic order on edges: by first point, then by second. */
  predicate EdgeBefore(e: Edge, f: Edge)
  {
    e.a < f.a || (e.a == f.a && e.b < f.b)
  }

  predicate StrictlySorted(es: seq<Edge>)
  {
    forall k, l :: 0 <= k < l < |es| ==> EdgeBefore(es[k], es[l])
  }

  // ---------------------------------------------------------------------------
  // The pass itself
  // ---------------------------------------------------------------------------

  /**
    The outer loop of `connectParticles` over the position buffer: at each
    point's offset `i` it runs the inner loop, `ConnectPoint`, and appends
    what that pushed.
  */
  method ConnectedVertices(positions: seq<real>) returns (vertices: seq<real>)
    ensures vertices == Connections(positions)
  {
    var n := |positions|;
    vertices := [];
    var i: nat := 0;
    ghost var a: nat := 0;
    while i < n
      invariant i == 3 * a && i < n + 3
      invariant vertices == VerticesBefore(positions, a)
    {
      var pushed := ConnectPoint(positions, i, a);
      vertices := vertices + pushed;
      i, a := i + 3, a + 1;
    }
    LastTurn(n, a);
  }

  /**
    The inner loop of `connectParticles` for the point at offset `i`
    (point `a`): every later point within range, in order.
  */
  method ConnectPoint(positions: seq<real>, i: nat, ghost a: nat) returns (vertices: seq<real>)
    requires i == 3 * a && i < |positions|
    ensures vertices == PointVertices(positions, a, PointCount(|positions|))
  {
    var n := |positions|;
    vertices := [];
    var j: nat := i + 3;
    ghost var b: nat := a + 1;
    while j < n
      invariant j == 3 * b && a < b && j < n + 3
      invariant vertices == PointVertices(positions, a, b)
    {
      ghost var before := vertices;
      vertices := ConnectPair(positions, i, j, a, b, vertices);
      InnerTurn(positions, a, b, before, vertices);
      j, b := j + 3, b + 1;
    }
    LastTurn(n, b);
  }

  /**
    One turn of the inner loop: the coordinates of the points at offsets
    `i` and `j` are appended when the points are closer than `maxDistance`.
    A trailing partial triple at `j` reads undefined coordinates and is
    never connected.
  */
  method ConnectPair(positions: seq<real>, i: nat, j: nat, ghost a: nat, ghost b: nat, prefix: seq<real>)
    returns (vertices: seq<real>)
    requires i == 3 * a && j == 3 * b && a < b && j < |positions|
    ensures vertices == prefix + PairVertices(positions, a, b)
  {
    vertices := prefix;
    if j + 2 < |positions| {
      var dx := positions[i] - positions[j];
      var dy := positions[i + 1] - positions[j + 1];
      var dz := positions[i + 2] - positions[j + 2];
      NearByDifferences(positions, a, b, dx, dy, dz);
      if Square(dx) + Square(dy) + Square(dz) < MaxDistance * MaxDistance {
        vertices := vertices + [positions[i], positions[i + 1], positions[i + 2]];
        vertices := vertices + [positions[j], positions[j + 1], positions[j + 2]];
      }
    }
  }

  /**
    The home scene's mutable state: the particle position buffer (absent
    until the scene is set up) and the position attribute of the line
    segments.
  */
  class HomeScene {
    var particles: array?<real>
    var lineVertices: seq<real>

    constructor ()
      ensures particles == null && lineVertices == []
    {
      particles := null;
      lineVertices := [];
    }

    /**
      `initHomeScene`: without a canvas nothing happens; otherwise a fresh
      buffer of 200 points is filled from one random draw per coordinate
      and the line geometry starts empty.
    */
    method Init(canvasPresent: bool, draws: seq<real>)
      requires |draws| == ParticleCount * Stride
      requires forall k :: 0 <= k < |draws| ==> 0.0 <= draws[k] < 1.0
      modifies this
      ensures !canvasPresent ==> particles == old(particles) && lineVertices == old(lineVertices)
      ensures canvasPresent ==> particles != null && fresh(particles) && lineVertices == []
      ensures canvasPresent ==> (
        && particles.Length == ParticleCount * Stride
        && (forall k :: 0 <= k < particles.Length ==> particles[k] == Scatter(draws[k]))
        && (forall k :: 0 <= k < particles.Length ==> -Spread / 2.0 <= particles[k] < Spread / 2.0))
    {
      if !canvasPresent {
        return;
      }
      var posArray := new real[ParticleCount * Stride];
      for i := 0 to posArray.Length
        invariant forall k :: 0 <= k < i ==> posArray[k] == Scatter(draws[k])
      {
        posArray[i] := Scatter(draws[i]);
      }
      particles := posArray;
      lineVertices := [];
    }

    /**
      `connectParticles`: a no-op before set-up; otherwise the line
      vertices are replaced by the pass's output. Only `lineVertices` may
      change: the position buffer is read, never written.
    */
    method ConnectParticles()
      modifies this`lineVertices
      ensures particles == null ==> lineVertices == old(lineVertices)
      ensures particles != null ==> lineVertices == Connections(particles[..])
    {
      if particles == null {
        return;
      }
      lineVertices := ConnectedVertices(particles[..]);
    }
  }

  // ---------------------------------------------------------------------------
  // Properties of the pass
  // ---------------------------------------------------------------------------

  /** Comparing squared distances with 225 is the source's `distance < 15`. */
  lemma SquaredThreshold(d: real)
    requires d >= 0.0
    ensures d < MaxDistance <==> d * d < MaxDistance * MaxDistance
  {
    if d >= MaxDistance {
      assert d * d >= 15.0 * d >= 225.0;
    } else {
      assert d * d <= 15.0 * d < 225.0;
    }
  }

  /** The distance test on the differences of the two triples is `Near`. */
  lemma NearByDifferences(s: seq<real>, a: nat, b: nat, dx: real, dy: real, dz: real)
    requires a < b && 3 * b + 2 < |s|
    requires dx == s[3 * a] - s[3 * b] && dy == s[3 * a + 1] - s[3 * b + 1] && dz == s[3 * a + 2] - s[3 * b + 2]
    ensures Near(s, a, b) <==> Square(dx) + Square(dy) + Square(dz) < MaxDistance * MaxDistance
  {
  }

  /** A loop stepping by 3 from a multiple of 3 stops after `PointCount` turns. */
  lemma {:induction false} LastTurn(n: nat, b: nat)
    requires n <= 3 * b < n + 3
    ensures b == PointCount(n)
  {
    if n > 3 {
      LastTurn(n - 3, b - 1);
    }
  }

  /** Every whole triple is visited by the loops. */
  lemma {:induction false} WholeVisited(n: nat, b: nat)
    requires 3 * b + 2 < n
    ensures b < PointCount(n)
  {
    if b > 0 {
      WholeVisited(n - 3, b - 1);
    }
  }

  lemma InnerTurn(s: seq<real>, a: nat, b: nat, before: seq<real>, after: seq<real>)
    requires a < b
    requires before == PointVertices(s, a, b)
    requires after == before + PairVertices(s, a, b)
    ensures after == PointVertices(s, a, b + 1)
  {
  }

  lemma {:induction false} SegmentsAppend(s: seq<real>, es: seq<Edge>, fs: seq<Edge>)
    requires forall e <- es :: Whole(s, e)
    requires forall e <- fs :: Whole(s, e)
    ensures Segments(s, es + fs) == Segments(s, es) + Segments(s, fs)
  {
    if es == [] {
      assert es + fs == fs;
    } else {
      assert (es + fs)[1..] == es[1..] + fs;
      SegmentsAppend(s, es[1..], fs);
    }
  }

  lemma SegmentsSingle(s: seq<real>, e: Edge)
    requires Whole(s, e)
    ensures Segments(s, [e]) == Segment(s, e)
  {
    assert [e][1..] == [];
  }

  /** What one inner turn pushes is the segment of the pair it connects, if any. */
  lemma PairSegment(s: seq<real>, a: nat, b: nat)
    ensures PairVertices(s, a, b) == Segments(s, PairEdges(s, a, b))
  {
    if Near(s, a, b) {
      SegmentsSingle(s, Edge(a, b));
      assert s[3 * a..3 * a + 3] == [s[3 * a], s[3 * a + 1], s[3 * a + 2]];
      assert s[3 * b..3 * b + 3] == [s[3 * b], s[3 * b + 1], s[3 * b + 2]];
    }
  }

  lemma PointEdgesStep(s: seq<real>, a: nat, p: nat, b: nat)
    requires a < p && b == p + 1
    ensures Segments(s, PointEdges(s, a, b))
      == Segments(s, PointEdges(s, a, p)) + Segments(s, PairEdges(s, a, p))
  {
    var es, fs := PointEdges(s, a, p), PairEdges(s, a, p);
    assert PointEdges(s, a, b) == es + fs;
    SegmentsAppend(s, es, fs);
  }

  lemma EdgesBeforeStep(s: seq<real>, p: nat, a: nat)
    requires a == p + 1
    ensures Segments(s, EdgesBefore(s, a))
      == Segments(s, EdgesBefore(s, p)) + Segments(s, PointEdges(s, p, PointCount(|s|)))
  {
    var es, fs := EdgesBefore(s, p), PointEdges(s, p, PointCount(|s|));
    assert EdgesBefore(s, a) == es + fs;
    SegmentsAppend(s, es, fs);
  }

  lemma PointVerticesStep(s: seq<real>, a: nat, p: nat, b: nat)
    requires a < p && b == p + 1
    ensures PointVertices(s, a, b) == PointVertices(s, a, p) + PairVertices(s, a, p)
  {
  }

  lemma PointTurn(s: seq<real>, a: nat, p: nat, b: nat)
    requires a < p && b == p + 1
    requires PointVertices(s, a, p) == Segments(s, PointEdges(s, a, p))
    ensures PointVertices(s, a, b) == Segments(s, PointEdges(s, a, b))
  {
    calc {
      PointVertices(s, a, b);
      { PointVerticesStep(s, a, p, b); }
      PointVertices(s, a, p) + PairVertices(s, a, p);
      { PairSegment(s, a, p); }
      Segments(s, PointEdges(s, a, p)) + Segments(s, PairEdges(s, a, p));
      { PointEdgesStep(s, a, p, b); }
      Segments(s, PointEdges(s, a, b));
    }
  }

  lemma PointStart(s: seq<real>, a: nat, b: nat)
    requires b <= a + 1
    ensures PointVertices(s, a, b) == Segments(s, PointEdges(s, a, b)) == []
  {
  }

  /** The inner loop pushes exactly the segments of the pairs it connects. */
  lemma {:induction false} PointVerticesSegments(s: seq<real>, a: nat, b: nat)
    ensures PointVertices(s, a, b) == Segments(s, PointEdges(s, a, b))
    decreases b
  {
    if b > a + 1 {
      var p := b - 1;
      PointVerticesSegments(s, a, p);
      PointTurn(s, a, p, b);
    } else {
      PointStart(s, a, b);
    }
  }

  lemma VerticesBeforeStep(s: seq<real>, p: nat, a: nat)
    requires a == p + 1
    ensures VerticesBefore(s, a) == VerticesBefore(s, p) + PointVertices(s, p, PointCount(|s|))
  {
  }

  lemma OuterTurn(s: seq<real>, p: nat, a: nat)
    requires a == p + 1
    requires VerticesBefore(s, p) == Segments(s, EdgesBefore(s, p))
    ensures VerticesBefore(s, a) == Segments(s, EdgesBefore(s, a))
  {
    var count := PointCount(|s|);
    calc {
      VerticesBefore(s, a);
      { VerticesBeforeStep(s, p, a); }
      VerticesBefore(s, p) + PointVertices(s, p, count);
      { PointVerticesSegments(s, p, count); }
      Segments(s, EdgesBefore(s, p)) + Segments(s, PointEdges(s, p, count));
      { EdgesBeforeStep(s, p, a); }
      Segments(s, EdgesBefore(s, a));
    }
  }

  /** The outer loop pushes exactly the segments of the pairs it connects. */
  lemma {:induction false} VerticesBeforeSegments(s: seq<real>, a: nat)
    ensures VerticesBefore(s, a) == Segments(s, EdgesBefore(s, a))
  {
    if a > 0 {
      var p := a - 1;
      VerticesBeforeSegments(s, p);
      OuterTurn(s, p, a);
    }
  }

  /** The vertex list is the segments of the connected pairs, in order. */
  lemma ConnectionsAreSegments(s: seq<real>)
    ensures Connections(s) == Segments(s, NearEdges(s))
  {
    VerticesBeforeSegments(s, PointCount(|s|));
  }

  /** Each edge contributes exactly six coordinates. */
  lemma {:induction false} SegmentsLength(s: seq<real>, es: seq<Edge>)
    requires forall e <- es :: Whole(s, e)
    ensures |Segments(s, es)| == 6 * |es|
  {
    if es != [] {
      assert es[0] in es;
      SegmentsLength(s, es[1..]);
    }
  }

  /** The output has two 3-coordinate endpoints per connected pair. */
  lemma ConnectionsLength(s: seq<real>)
    ensures |Connections(s)| == 6 * |NearEdges(s)|
  {
    ConnectionsAreSegments(s);
    SegmentsLength(s, NearEdges(s));
  }

  /** The `k`-th group of six coordinates is edge `k`'s first triple, then its second. */
  lemma {:induction false} SegmentsAt(s: seq<real>, es: seq<Edge>, k: nat)
    requires forall e <- es :: Whole(s, e)
    requires k < |es|
    ensures 6 * k + 6 <= |Segments(s, es)| == 6 * |es|
    ensures es[k] in es && Whole(s, es[k])
    ensures Segments(s, es)[6 * k..6 * k + 3] == s[3 * es[k].a..3 * es[k].a + 3]
    ensures Segments(s, es)[6 * k + 3..6 * k + 6] == s[3 * es[k].b..3 * es[k].b + 3]
  {
    SegmentsLength(s, es);
    SegmentsLength(s, es[1..]);
    assert es[0] in es;
    var seg := Segment(s, es[0]);
    assert Segments(s, es) == seg + Segments(s, es[1..]);
    if k == 0 {
      assert Segments(s, es)[0..3] == seg[0..3] == s[3 * es[0].a..3 * es[0].a + 3];
      assert Segments(s, es)[3..6] == seg[3..6] == s[3 * es[0].b..3 * es[0].b + 3];
    } else {
      var q, tail := k - 1, es[1..];
      assert tail[q] == es[k];
      SegmentsAt(s, tail, q);
      var rest := Segments(s, tail);
      assert 6 * k == 6 * q + 6;
      assert Segments(s, es)[6 * k..6 * k + 3] == rest[6 * q..6 * q + 3];
      assert Segments(s, es)[6 * k + 3..6 * k + 6] == rest[6 * q + 3..6 * q + 6];
    }
  }

  lemma {:induction false} PointEdgesExact(s: seq<real>, a: nat, b: nat, e: Edge)
    ensures e in PointEdges(s, a, b) <==> e.a == a && e.b < b && Near(s, e.a, e.b)
    decreases b
  {
    if b > a + 1 {
      PointEdgesExact(s, a, b - 1, e);
    }
  }

  lemma {:induction false} EdgesBeforeExact(s: seq<real>, a: nat, e: Edge)
    ensures e in EdgesBefore(s, a) <==> e.a < a && e.b < PointCount(|s|) && Near(s, e.a, e.b)
  {
    if a > 0 {
      var p, count := a - 1, PointCount(|s|);
      EdgesBeforeExact(s, p, e);
      PointEdgesExact(s, p, count, e);
    }
  }

  /**
    Points `a` and `b` are connected exactly when `a` comes before `b`,
    `b` is a whole triple, and their squared distance is strictly below
    15 * 15. In particular there are no self-pairs, and a pair at
    distance exactly 15 is left out.
  */
  lemma NearEdgesExact(s: seq<real>, a: nat, b: nat)
    ensures Edge(a, b) in NearEdges(s) <==>
      Whole(s, Edge(a, b)) && SqDist(s, 3 * a, 3 * b) < MaxDistance * MaxDistance
  {
    EdgesBeforeExact(s, PointCount(|s|), Edge(a, b));
    if 3 * b + 2 < |s| {
      WholeVisited(|s|, b);
    }
  }

  lemma {:induction false} PointEdgesSorted(s: seq<real>, a: nat, b: nat)
    ensures StrictlySorted(PointEdges(s, a, b))
    decreases b
  {
    if b > a + 1 {
      PointEdgesSorted(s, a, b - 1);
    }
  }

  lemma {:induction false} EdgesBeforeSorted(s: seq<real>, a: nat)
    ensures StrictlySorted(EdgesBefore(s, a))
  {
    if a > 0 {
      var p, count := a - 1, PointCount(|s|);
      var es, fs := EdgesBefore(s, p), PointEdges(s, p, count);
      EdgesBeforeSorted(s, p);
      PointEdgesSorted(s, p, count);
      forall k, l | 0 <= k < l < |es + fs|
        ensures EdgeBefore((es + fs)[k], (es + fs)[l])
      {
        if l < |es| {
          assert (es + fs)[k] == es[k] && (es + fs)[l] == es[l];
        } else if k >= |es| {
          assert (es + fs)[k] == fs[k - |es|] && (es + fs)[l] == fs[l - |es|];
        } else {
          assert (es + fs)[k] == es[k] && (es + fs)[l] == fs[l - |es|];
          assert es[k] in es && fs[l - |es|] in fs;
        }
      }
    }
  }

  /**
    Pairs come out in lexicographic order of (a, b); hence no pair is
    connected twice.
  */
  lemma NearEdgesOrdered(s: seq<real>)
    ensures StrictlySorted(NearEdges(s))
    ensures forall k, l :: 0 <= k < l < |NearEdges(s)| ==> NearEdges(s)[k] != NearEdges(s)[l]
  {
    EdgesBeforeSorted(s, PointCount(|s|));
  }

  /**
    Each group of six output coordinates is two triples of the input
    buffer, each starting at a multiple of 3, the earlier point first.
  */
  lemma EmittedTriples(s: seq<real>, k: nat)
    requires k < |NearEdges(s)|
    ensures |Connections(s)| == 6 * |NearEdges(s)|
    ensures exists p: nat, q: nat :: (
      && p < q && 3 * q + 2 < |s|
      && Connections(s)[6 * k..6 * k + 3] == s[3 * p..3 * p + 3]
      && Connections(s)[6 * k + 3..6 * k + 6] == s[3 * q..3 * q + 3])
  {
    var es := NearEdges(s);
    ConnectionsAreSegments(s);
    SegmentsAt(s, es, k);
    var e := es[k];
    assert e.a < e.b && 3 * e.b + 2 < |s|;
  }

  /** With fewer than two whole points the vertex list is empty. */
  lemma FewPointsNoSegments(s: seq<real>)
    requires |s| < 2 * Stride
    ensures NearEdges(s) == [] && Connections(s) == []
  {
    ConnectionsAreSegments(s);
    assert PointCount(|s|) <= 2 by {
      if |s| > 3 {
        assert PointCount(|s|) == 1 + PointCount(|s| - 3);
      }
    }
    assert EdgesBefore(s, 1) == [];
  }

  /** Points (0,0,0), (1,0,0) and (100,0,0): only the first two are connected. */
  lemma ThreePointExample()
    ensures NearEdges([0.0, 0.0, 0.0, 1.0, 0.0, 0.0, 100.0, 0.0, 0.0]) == [Edge(0, 1)]
    ensures Connections([0.0, 0.0, 0.0, 1.0, 0.0, 0.0, 100.0, 0.0, 0.0]) == [0.0, 0.0, 0.0, 1.0, 0.0, 0.0]
  {
    var s := [0.0, 0.0, 0.0, 1.0, 0.0, 0.0, 100.0, 0.0, 0.0];
    assert PointCount(3) == 1 && PointCount(6) == 2 && PointCount(|s|) == 3;
    assert SqDist(s, 0, 3) == 1.0;
    assert SqDist(s, 0, 6) == 10000.0;
    assert SqDist(s, 3, 6) == 9801.0;
    assert PointEdges(s, 0, 3) == [Edge(0, 1)];
    assert PointEdges(s, 1, 3) == [];
    assert PointEdges(s, 2, 3) == [];
    assert NearEdges(s) == [Edge(0, 1)];
    assert PointVertices(s, 0, 3) == [0.0, 0.0, 0.0, 1.0, 0.0, 0.0];
    assert PointVertices(s, 1, 3) == [];
    assert PointVertices(s, 2, 3) == [];
  }
}

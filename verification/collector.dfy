/** The triangle collector: the state it accumulates while walking the
    geometry of model elements, and the drawing operations that fill it.
    The state is threaded through pure functions; an operation that would
    break one of the collector's assertions returns the broken invariant. */
module Collector {
  import opened Results
  import opened Geometry
  import opened VertexPool
  import opened TransformStack
  import opened IndexRecords

  datatype State = State(
    vertices: seq<Key>,
    lines: seq<LineSegmentIndices>,
    instanceTriangles: seq<TriangleIndices>,
    symbolTransform: Option<Transform>,
    symbolTriangles: seq<TriangleIndices>,
    transformations: seq<Transform>)

  // ---------------------------------------------------------------------
  // Invariants

  ghost predicate SegmentWithin(s: LineSegmentIndices, n: nat) {
    s.a < n && s.b < n
  }

  ghost predicate TriangleWithin(t: TriangleIndices, n: nat) {
    t.a < n && t.b < n && t.c < n
  }

  ghost predicate SegmentsWithin(lines: seq<LineSegmentIndices>, n: nat) {
    forall s :: s in lines ==> SegmentWithin(s, n)
  }

  ghost predicate TrianglesWithin(tris: seq<TriangleIndices>, n: nat) {
    forall t :: t in tris ==> TriangleWithin(t, n)
  }

  /** Every stored index was handed out by the vertex pool, and the pool
      holds each quantised point once. */
  ghost predicate IndicesValid(st: State) {
    var n := |st.vertices|;
    && Distinct(st.vertices)
    && SegmentsWithin(st.lines, n)
    && TrianglesWithin(st.instanceTriangles, n)
    && TrianglesWithin(st.symbolTriangles, n)
  }

  /** The collector's invariant between mesh triangles: valid indices, a
      stack at most one deep, one symbol triangle per instance triangle, and
      a symbol transform captured exactly when a symbol triangle exists. */
  ghost predicate Valid(st: State) {
    && IndicesValid(st)
    && |st.transformations| <= 1
    && |st.instanceTriangles| == |st.symbolTriangles|
    && (st.symbolTransform.Some? <==> |st.symbolTriangles| > 0)
  }

  /** `st'` was reached from `st` by drawing: the pool and the record lists
      only grew at their ends, and a captured symbol transform was kept. */
  ghost predicate Extends(st: State, st': State) {
    && st.vertices <= st'.vertices
    && st.lines <= st'.lines
    && st.instanceTriangles <= st'.instanceTriangles
    && st.symbolTriangles <= st'.symbolTriangles
    && (st.symbolTransform.Some? ==> st'.symbolTransform == st.symbolTransform)
  }

  lemma ExtendsTrans(st: State, st': State, st'': State)
    requires Extends(st, st') && Extends(st', st'')
    ensures Extends(st, st'')
  {
  }

  /** Segment `s` joins the pool entries holding keys `kp` and `kq`. */
  ghost predicate Joins(keys: seq<Key>, s: LineSegmentIndices, kp: Key, kq: Key) {
    s.a < |keys| && s.b < |keys| && keys[s.a] == kp && keys[s.b] == kq
  }

  /** Triangle `t` spans the pool entries holding `kp`, `kq`, `kr`, in that order. */
  ghost predicate Spans(keys: seq<Key>, t: TriangleIndices, kp: Key, kq: Key, kr: Key) {
    && t.a < |keys| && t.b < |keys| && t.c < |keys|
    && keys[t.a] == kp && keys[t.b] == kq && keys[t.c] == kr
  }

  /** The key of a point after the whole transform stack has been applied. */
  function WorldKey(k: Kernel, stack: seq<Transform>, p: Point): Key {
    k.quantize(TransformPoint(k, stack, p))
  }

  /** A fresh collector: everything empty, no transform, nothing captured. */
  function NewCollector(): (st: State)
    ensures Valid(st)
    ensures st.vertices == [] && st.transformations == [] && st.symbolTransform.None?
    ensures st.lines == [] && st.instanceTriangles == [] && st.symbolTriangles == []
  {
    State([], [], [], None, [], [])
  }

  /** Indices stay valid while the pool grows without duplicates. */
  lemma PoolGrown(st: State, keys: seq<Key>)
    requires IndicesValid(st) && Distinct(keys) && st.vertices <= keys
    ensures IndicesValid(st.(vertices := keys))
  {
  }

  lemma SegmentAppended(lines: seq<LineSegmentIndices>, s: LineSegmentIndices, n: nat)
    requires SegmentsWithin(lines, n) && SegmentWithin(s, n)
    ensures SegmentsWithin(lines + [s], n)
  {
  }

  lemma TriangleAppended(tris: seq<TriangleIndices>, t: TriangleIndices, n: nat)
    requires TrianglesWithin(tris, n) && TriangleWithin(t, n)
    ensures TrianglesWithin(tris + [t], n)
  {
  }

  // ---------------------------------------------------------------------
  // Storing vertices, lines and triangles

  /** The pool index of `p`, quantised: the existing index of a key seen
      before, or the next index for a new key, which is appended. */
  function VertexIndexOf(k: Kernel, st: State, p: Point): (r: (State, nat))
    ensures r.0 == st.(vertices := r.0.vertices)
    ensures r.1 < |r.0.vertices| && r.0.vertices[r.1] == k.quantize(p)
    ensures k.quantize(p) in st.vertices ==> r.0 == st
    ensures k.quantize(p) !in st.vertices ==>
              r.0.vertices == st.vertices + [k.quantize(p)] && r.1 == |st.vertices|
    ensures Distinct(st.vertices) ==> Distinct(r.0.vertices)
  {
    var key := k.quantize(p);
    AddKeepsDistinct(st.vertices, key);
    var (keys, i) := Add(st.vertices, key);
    (st.(vertices := keys), i)
  }

  /** A key already pooled keeps its index and leaves the state unchanged. */
  lemma VertexIndexOfKnown(k: Kernel, st: State, p: Point, i: nat)
    requires Distinct(st.vertices) && i < |st.vertices| && st.vertices[i] == k.quantize(p)
    ensures VertexIndexOf(k, st, p) == (st, i)
  {
    IndexOfUnique(st.vertices, k.quantize(p), i);
  }

  /** Pool indices for three points, in the order p, q, r. */
  function PooledTriangle(k: Kernel, st: State, p: Point, q: Point, r: Point): (res: (State, TriangleIndices))
    ensures res.0 == st.(vertices := res.0.vertices)
    ensures st.vertices <= res.0.vertices
    ensures Distinct(st.vertices) ==> Distinct(res.0.vertices)
    ensures Spans(res.0.vertices, res.1, k.quantize(p), k.quantize(q), k.quantize(r))
    ensures res.0.vertices == AddAll(st.vertices, [k.quantize(p), k.quantize(q), k.quantize(r)])
  {
    var (st1, a) := VertexIndexOf(k, st, p);
    var (st2, b) := VertexIndexOf(k, st1, q);
    var (st3, c) := VertexIndexOf(k, st2, r);
    assert st1.vertices <= st3.vertices;
    AddAllThree(st.vertices, k.quantize(p), k.quantize(q), k.quantize(r));
    (st3, TriangleIndices(a, b, c))
  }

  /** Records one segment between the transformed `p` and `q`. */
  function DrawLine(k: Kernel, st: State, p: Point, q: Point): (r: State)
    requires IndicesValid(st)
    ensures IndicesValid(r) && Extends(st, r)
    ensures r == st.(vertices := r.vertices, lines := r.lines)
    ensures |r.lines| == |st.lines| + 1
    ensures Joins(r.vertices, r.lines[|st.lines|],
                  WorldKey(k, st.transformations, p), WorldKey(k, st.transformations, q))
    ensures r.vertices == AddAll(st.vertices, [WorldKey(k, st.transformations, p), WorldKey(k, st.transformations, q)])
  {
    AddAllTwo(st.vertices, WorldKey(k, st.transformations, p), WorldKey(k, st.transformations, q));
    var (st1, a) := VertexIndexOf(k, st, TransformPoint(k, st.transformations, p));
    var (st2, b) := VertexIndexOf(k, st1, TransformPoint(k, st1.transformations, q));
    var s := LineSegmentIndices(a, b);
    PoolGrown(st, st2.vertices);
    SegmentAppended(st2.lines, s, |st2.vertices|);
    st2.(lines := st2.lines + [s])
  }

  /** Records one instance-space triangle: corners transformed. */
  function DrawInstanceTriangle(k: Kernel, st: State, p: Point, q: Point, r: Point): (res: State)
    requires IndicesValid(st)
    ensures IndicesValid(res) && Extends(st, res)
    ensures res == st.(vertices := res.vertices, instanceTriangles := res.instanceTriangles)
    ensures |res.instanceTriangles| == |st.instanceTriangles| + 1
    ensures Spans(res.vertices, res.instanceTriangles[|st.instanceTriangles|],
                  WorldKey(k, st.transformations, p), WorldKey(k, st.transformations, q),
                  WorldKey(k, st.transformations, r))
    ensures res.vertices == AddAll(st.vertices, [WorldKey(k, st.transformations, p),
                                                 WorldKey(k, st.transformations, q),
                                                 WorldKey(k, st.transformations, r)])
  {
    var stack := st.transformations;
    var (st1, t) := PooledTriangle(k, st, TransformPoint(k, stack, p),
                                   TransformPoint(k, stack, q), TransformPoint(k, stack, r));
    PoolGrown(st, st1.vertices);
    TriangleAppended(st1.instanceTriangles, t, |st1.vertices|);
    st1.(instanceTriangles := st1.instanceTriangles + [t])
  }

  /** Records one symbol-space triangle: corners untransformed. The first
      one captures the single active transform as the symbol transform;
      later ones must be drawn under a transform AlmostEqual to it. */
  function DrawSymbolTriangle(k: Kernel, st: State, p: Point, q: Point, r: Point): (res: State)
    requires IndicesValid(st)
    requires |st.transformations| == 1
    requires st.symbolTransform.Some? ==> k.almostEqual(st.symbolTransform.value, st.transformations[0])
    ensures IndicesValid(res) && Extends(st, res)
    ensures res == st.(vertices := res.vertices, symbolTriangles := res.symbolTriangles,
                       symbolTransform := res.symbolTransform)
    ensures st.symbolTransform.None? ==> res.symbolTransform == Some(st.transformations[0])
    ensures |res.symbolTriangles| == |st.symbolTriangles| + 1
    ensures Spans(res.vertices, res.symbolTriangles[|st.symbolTriangles|],
                  k.quantize(p), k.quantize(q), k.quantize(r))
    ensures res.vertices == AddAll(st.vertices, [k.quantize(p), k.quantize(q), k.quantize(r)])
  {
    var st0 := if st.symbolTransform.None? then st.(symbolTransform := Some(st.transformations[0])) else st;
    var (st1, t) := PooledTriangle(k, st0, p, q, r);
    PoolGrown(st0, st1.vertices);
    TriangleAppended(st1.symbolTriangles, t, |st1.vertices|);
    st1.(symbolTriangles := st1.symbolTriangles + [t])
  }

  // ---------------------------------------------------------------------
  // Lines

  /** Number of segments a polyline of `n` points yields. */
  function SegmentCount(n: nat): nat {
    if n == 0 then 0 else n - 1
  }

  /** `n` segments were appended: only the pool and the line list changed. */
  ghost predicate LinesAdded(st: State, r: State, n: nat) {
    && IndicesValid(r) && Extends(st, r)
    && r == st.(vertices := r.vertices, lines := r.lines)
    && |r.lines| == |st.lines| + n
  }

  /** The keys DrawLines looks up, in call order: the two transformed ends
      of each segment. */
  ghost function LineKeys(k: Kernel, stack: seq<Transform>, pts: seq<Point>): seq<Key>
    decreases |pts|
  {
    if |pts| < 2 then []
    else [WorldKey(k, stack, pts[0]), WorldKey(k, stack, pts[1])] + LineKeys(k, stack, pts[1..])
  }

  /** The outcome promised by DrawLines: only the pool and the line list
      change, the pool grows by the segment ends in call order, and segment
      i joins transformed points i and i + 1. */
  ghost predicate LinesDrawn(k: Kernel, st: State, pts: seq<Point>, r: State) {
    && LinesAdded(st, r, SegmentCount(|pts|))
    && r.vertices == AddAll(st.vertices, LineKeys(k, st.transformations, pts))
    && SegmentsJoin(k, st, pts, r)
  }

  /** Segment i appended to `st` joins transformed points i and i + 1. */
  ghost predicate SegmentsJoin(k: Kernel, st: State, pts: seq<Point>, r: State) {
    forall i :: 0 <= i < |pts| - 1 ==> SegmentJoins(k, st, pts, r, i)
  }

  ghost predicate SegmentJoins(k: Kernel, st: State, pts: seq<Point>, r: State, i: nat)
    requires i < |pts| - 1
  {
    && |st.lines| + i < |r.lines|
    && Joins(r.vertices, r.lines[|st.lines| + i],
             WorldKey(k, st.transformations, pts[i]), WorldKey(k, st.transformations, pts[i + 1]))
  }

  /** Draws the segments between consecutive points. */
  function DrawLines(k: Kernel, st: State, pts: seq<Point>): (r: State)
    requires IndicesValid(st)
    ensures LinesDrawn(k, st, pts, r)
    ensures Valid(st) ==> Valid(r)
    decreases |pts|
  {
    if |pts| < 2 then st
    else
      var st1 := DrawLine(k, st, pts[0], pts[1]);
      var r := DrawLines(k, st1, pts[1..]);
      assert LinesAdded(st, st1, 1);
      assert st1.vertices == AddAll(st.vertices, [WorldKey(k, st.transformations, pts[0]),
                                                  WorldKey(k, st.transformations, pts[1])]);
      LinesDrawnCons(k, st, st1, r, pts);
      r
  }

  /** The first segment and then the segments of the rest are the segments
      of all the points. */
  lemma {:induction false} LinesDrawnCons(k: Kernel, st: State, st1: State, r: State, pts: seq<Point>)
    requires |pts| >= 2 && IndicesValid(st)
    requires LinesAdded(st, st1, 1)
    requires st1.vertices == AddAll(st.vertices, [WorldKey(k, st.transformations, pts[0]),
                                                  WorldKey(k, st.transformations, pts[1])])
    requires Joins(st1.vertices, st1.lines[|st.lines|],
                   WorldKey(k, st.transformations, pts[0]), WorldKey(k, st.transformations, pts[1]))
    requires LinesDrawn(k, st1, pts[1..], r)
    ensures LinesDrawn(k, st, pts, r)
    ensures Valid(st) ==> Valid(r)
  {
    ExtendsTrans(st, st1, r);
    LineKeysCons(k, st.transformations, st.vertices, pts);
    SegmentsJoinCons(k, st, st1, r, pts);
  }

  lemma {:induction false} SegmentsJoinCons(k: Kernel, st: State, st1: State, r: State, pts: seq<Point>)
    requires |pts| >= 2 && Extends(st1, r)
    requires st1.transformations == st.transformations && |st1.lines| == |st.lines| + 1
    requires SegmentWithin(st1.lines[|st.lines|], |st1.vertices|)
    requires Joins(st1.vertices, st1.lines[|st.lines|],
                   WorldKey(k, st.transformations, pts[0]), WorldKey(k, st.transformations, pts[1]))
    requires SegmentsJoin(k, st1, pts[1..], r)
    ensures SegmentsJoin(k, st, pts, r)
  {
    forall i | 0 <= i < |pts| - 1
      ensures SegmentJoins(k, st, pts, r, i)
    {
      if i == 0 {
        JoinsKept(st1, r, |st.lines|);
      } else {
        var j := i - 1;
        var rest := pts[1..];
        assert rest[j] == pts[i] && rest[j + 1] == pts[i + 1];
        assert SegmentJoins(k, st1, rest, r, j);
      }
    }
  }

  /** The pool after the first segment, grown by the rest, is the pool
      grown by all segments. */
  lemma LineKeysCons(k: Kernel, stack: seq<Transform>, keys: seq<Key>, pts: seq<Point>)
    requires |pts| >= 2
    ensures AddAll(keys, LineKeys(k, stack, pts)) ==
              AddAll(AddAll(keys, [WorldKey(k, stack, pts[0]), WorldKey(k, stack, pts[1])]),
                     LineKeys(k, stack, pts[1..]))
  {
    AddAllAppend(keys, [WorldKey(k, stack, pts[0]), WorldKey(k, stack, pts[1])], LineKeys(k, stack, pts[1..]));
  }

  lemma JoinsKept(st: State, st': State, j: nat)
    requires Extends(st, st') && j < |st.lines|
    requires SegmentWithin(st.lines[j], |st.vertices|)
    ensures st'.lines[j] == st.lines[j]
    ensures st'.vertices[st.lines[j].a] == st.vertices[st.lines[j].a]
    ensures st'.vertices[st.lines[j].b] == st.vertices[st.lines[j].b]
  {
  }

  function DrawCurve(k: Kernel, st: State, tessellation: seq<Point>): (r: State)
    requires IndicesValid(st)
    ensures LinesDrawn(k, st, tessellation, r)
  {
    DrawLines(k, st, tessellation)
  }

  function DrawPolyLine(k: Kernel, st: State, coordinates: seq<Point>): (r: State)
    requires IndicesValid(st)
    ensures LinesDrawn(k, st, coordinates, r)
  {
    DrawLines(k, st, coordinates)
  }

  function DrawEdge(k: Kernel, st: State, e: Edge): (r: State)
    requires IndicesValid(st)
    ensures LinesDrawn(k, st, e.points, r)
  {
    DrawLines(k, st, e.points)
  }

  // ---------------------------------------------------------------------
  // Output strings

  /** InstanceTriangleIndices: the instance triangles printed "A B C" and
      joined by single spaces; reading it back gives their indices in order. */
  function InstanceTriangleIndices(st: State): (s: string)
    ensures ParseIndices(s) == Some(Flatten(st.instanceTriangles))
  {
    IndexString(st.instanceTriangles)
  }

  /** SymbolTriangleIndices: the same format over the symbol triangles. */
  function SymbolTriangleIndices(st: State): (s: string)
    ensures ParseIndices(s) == Some(Flatten(st.symbolTriangles))
  {
    IndexString(st.symbolTriangles)
  }
}

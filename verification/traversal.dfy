/** The recursive walk over element and geometry trees that drives the
    collector: meshes and faces record triangle pairs, curves, polylines and
    edges record segments, instances push their transform around their
    symbol geometry, and groups draw their members before their own
    geometry. */
module Traversal {
  import opened Results
  import opened Geometry
  import opened TransformStack
  import opened IndexRecords
  import opened VertexPool
  import opened Collector

  // ---------------------------------------------------------------------
  // Meshes

  /** When drawing `n` mesh triangles passes every assertion: with at least
      one triangle, the stack must be exactly one deep, a captured symbol
      transform must be AlmostEqual to the active one, and from the second
      triangle on the transform captured by the first is compared too. */
  ghost predicate MeshAdmissible(k: Kernel, captured: Option<Transform>, stack: seq<Transform>, n: nat) {
    n == 0 ||
    (&& |stack| == 1
     && (captured.Some? ==> k.almostEqual(captured.value, stack[0]))
     && (n > 1 ==> k.almostEqual(captured.GetOr(stack[0]), stack[0])))
  }

  /** One mesh triangle recorded twice over the pool `keys`: `ti` spans its
      corners transformed by `stack`, `ts` spans its raw corners. */
  ghost predicate Recorded(k: Kernel, stack: seq<Transform>, keys: seq<Key>,
                           ti: TriangleIndices, ts: TriangleIndices, t: MeshTriangle) {
    && Spans(keys, ti, WorldKey(k, stack, t.p), WorldKey(k, stack, t.q), WorldKey(k, stack, t.r))
    && Spans(keys, ts, k.quantize(t.p), k.quantize(t.q), k.quantize(t.r))
  }

  /** Mesh triangle `i` is recorded as instance triangle `ni + i` and
      symbol triangle `ns + i` of `r`. */
  ghost predicate RecordedFrom(k: Kernel, stack: seq<Transform>, r: State, ni: nat, ns: nat, tris: seq<MeshTriangle>) {
    && ni + |tris| <= |r.instanceTriangles| && ns + |tris| <= |r.symbolTriangles|
    && forall i :: 0 <= i < |tris| ==>
         Recorded(k, stack, r.vertices, r.instanceTriangles[ni + i], r.symbolTriangles[ns + i], tris[i])
  }

  /** The keys one iteration of the mesh loop looks up, in call order: the
      three transformed corners, then the three raw corners. */
  ghost function TriangleKeys(k: Kernel, stack: seq<Transform>, t: MeshTriangle): seq<Key> {
    [WorldKey(k, stack, t.p), WorldKey(k, stack, t.q), WorldKey(k, stack, t.r),
     k.quantize(t.p), k.quantize(t.q), k.quantize(t.r)]
  }

  /** The keys the whole mesh loop looks up, triangle after triangle. */
  ghost function MeshKeys(k: Kernel, stack: seq<Transform>, tris: seq<MeshTriangle>): seq<Key>
    decreases |tris|
  {
    if |tris| == 0 then [] else TriangleKeys(k, stack, tris[0]) + MeshKeys(k, stack, tris[1..])
  }

  /** The outcome promised by DrawMesh: lines and stack untouched, the pool
      grown by the looked-up keys in call order, one instance triangle and
      one symbol triangle per mesh triangle, in order, the first over
      transformed corners and the second over raw corners. */
  ghost predicate MeshDrawn(k: Kernel, st: State, tris: seq<MeshTriangle>, r: State) {
    && Valid(r) && Extends(st, r)
    && r.vertices == AddAll(st.vertices, MeshKeys(k, st.transformations, tris))
    && r.lines == st.lines && r.transformations == st.transformations
    && |r.instanceTriangles| == |st.instanceTriangles| + |tris|
    && |r.symbolTriangles| == |st.symbolTriangles| + |tris|
    && RecordedFrom(k, st.transformations, r, |st.instanceTriangles|, |st.symbolTriangles|, tris)
    && (|tris| == 0 ==> r == st)
    && (|tris| > 0 ==>
          |st.transformations| == 1 &&
          r.symbolTransform == Some(st.symbolTransform.GetOr(st.transformations[0])))
  }

  /** One iteration of the mesh loop: the instance triangle, then the
      symbol triangle, each behind the assertions that guard it. */
  function DrawMeshTriangle(k: Kernel, st: State, t: MeshTriangle): (res: Result<State>)
    requires Valid(st)
    ensures res.Success? <==> MeshAdmissible(k, st.symbolTransform, st.transformations, 1)
    ensures res.Failure? && |st.transformations| != 1 ==> res.violation == SymbolLevel
    ensures res.Failure? && |st.transformations| == 1 ==> res.violation == SymbolTransformMismatch
    ensures res.Success? ==> MeshDrawn(k, st, [t], res.value)
  {
    var st1 := DrawInstanceTriangle(k, st, t.p, t.q, t.r);
    if |st1.transformations| != 1 then Failure(SymbolLevel)
    else if st1.symbolTransform.Some? && !k.almostEqual(st1.symbolTransform.value, st1.transformations[0]) then
      Failure(SymbolTransformMismatch)
    else
      var st2 := DrawSymbolTriangle(k, st1, t.p, t.q, t.r);
      assert InstanceStep(k, st, t, st1);
      assert SymbolStep(k, st1, t, st2);
      MeshTriangleDrawn(k, st, st1, st2, t);
      Success(st2)
  }

  /** What DrawInstanceTriangle promises about drawing `t` from `st` to `st1`. */
  ghost predicate InstanceStep(k: Kernel, st: State, t: MeshTriangle, st1: State) {
    && IndicesValid(st1) && Extends(st, st1)
    && st1 == st.(vertices := st1.vertices, instanceTriangles := st1.instanceTriangles)
    && |st1.instanceTriangles| == |st.instanceTriangles| + 1
    && st1.vertices == AddAll(st.vertices, [WorldKey(k, st.transformations, t.p),
                                            WorldKey(k, st.transformations, t.q),
                                            WorldKey(k, st.transformations, t.r)])
    && Spans(st1.vertices, st1.instanceTriangles[|st.instanceTriangles|],
             WorldKey(k, st.transformations, t.p), WorldKey(k, st.transformations, t.q),
             WorldKey(k, st.transformations, t.r))
  }

  /** What DrawSymbolTriangle promises about drawing `t` from `st1` to `st2`. */
  ghost predicate SymbolStep(k: Kernel, st1: State, t: MeshTriangle, st2: State) {
    && IndicesValid(st2) && Extends(st1, st2)
    && st2 == st1.(vertices := st2.vertices, symbolTriangles := st2.symbolTriangles,
                   symbolTransform := st2.symbolTransform)
    && |st1.transformations| == 1
    && (st1.symbolTransform.None? ==> st2.symbolTransform == Some(st1.transformations[0]))
    && |st2.symbolTriangles| == |st1.symbolTriangles| + 1
    && st2.vertices == AddAll(st1.vertices, [k.quantize(t.p), k.quantize(t.q), k.quantize(t.r)])
    && Spans(st2.vertices, st2.symbolTriangles[|st1.symbolTriangles|],
             k.quantize(t.p), k.quantize(t.q), k.quantize(t.r))
  }

  /** The proof for one iteration of the mesh loop: the instance triangle
      and then the symbol triangle make one MeshDrawn step. */
  lemma MeshTriangleDrawn(k: Kernel, st: State, st1: State, st2: State, t: MeshTriangle)
    requires Valid(st)
    requires InstanceStep(k, st, t, st1)
    requires SymbolStep(k, st1, t, st2)
    ensures MeshDrawn(k, st, [t], st2)
  {
    var ni := |st.instanceTriangles|;
    var ns := |st.symbolTriangles|;
    var stack := st.transformations;
    SpansKept(st1.vertices, st2.vertices, st1.instanceTriangles[ni],
              WorldKey(k, stack, t.p), WorldKey(k, stack, t.q), WorldKey(k, stack, t.r));
    assert [t][0] == t;
    assert Recorded(k, stack, st2.vertices, st2.instanceTriangles[ni], st2.symbolTriangles[ns], t);
    ExtendsTrans(st, st1, st2);
    OneTriangleKeys(k, stack, st.vertices, t);
  }

  /** The pool after one iteration: transformed corners, then raw corners. */
  lemma OneTriangleKeys(k: Kernel, stack: seq<Transform>, keys: seq<Key>, t: MeshTriangle)
    ensures AddAll(keys, MeshKeys(k, stack, [t])) ==
              AddAll(AddAll(keys, [WorldKey(k, stack, t.p), WorldKey(k, stack, t.q), WorldKey(k, stack, t.r)]),
                     [k.quantize(t.p), k.quantize(t.q), k.quantize(t.r)])
  {
    assert [t][0] == t && [t][1..] == [];
    assert MeshKeys(k, stack, [t]) ==
             [WorldKey(k, stack, t.p), WorldKey(k, stack, t.q), WorldKey(k, stack, t.r)] +
             [k.quantize(t.p), k.quantize(t.q), k.quantize(t.r)];
    AddAllAppend(keys, [WorldKey(k, stack, t.p), WorldKey(k, stack, t.q), WorldKey(k, stack, t.r)],
                 [k.quantize(t.p), k.quantize(t.q), k.quantize(t.r)]);
  }

  /** The pool after the first triangle, grown by the rest, is the pool
      grown by the whole mesh. */
  lemma MeshKeysCons(k: Kernel, stack: seq<Transform>, keys: seq<Key>, tris: seq<MeshTriangle>)
    requires |tris| > 0
    ensures AddAll(keys, MeshKeys(k, stack, tris)) ==
              AddAll(AddAll(keys, MeshKeys(k, stack, [tris[0]])), MeshKeys(k, stack, tris[1..]))
  {
    var head := TriangleKeys(k, stack, tris[0]);
    var rest := MeshKeys(k, stack, tris[1..]);
    assert [tris[0]][0] == tris[0] && [tris[0]][1..] == [];
    assert MeshKeys(k, stack, [tris[0]]) == head + [];
    assert head + [] == head;
    assert MeshKeys(k, stack, tris) == head + rest;
    AddAllAppend(keys, head, rest);
  }

  lemma SpansKept(keys: seq<Key>, keys': seq<Key>, t: TriangleIndices, kp: Key, kq: Key, kr: Key)
    requires keys <= keys' && Spans(keys, t, kp, kq, kr)
    ensures Spans(keys', t, kp, kq, kr)
  {
    assert keys'[..|keys|] == keys;
    assert keys'[t.a] == keys'[..|keys|][t.a];
    assert keys'[t.b] == keys'[..|keys|][t.b];
    assert keys'[t.c] == keys'[..|keys|][t.c];
  }

  lemma RecordedKept(k: Kernel, stack: seq<Transform>, keys: seq<Key>, keys': seq<Key>,
                     ti: TriangleIndices, ts: TriangleIndices, t: MeshTriangle)
    requires keys <= keys' && Recorded(k, stack, keys, ti, ts, t)
    ensures Recorded(k, stack, keys', ti, ts, t)
  {
    SpansKept(keys, keys', ti, WorldKey(k, stack, t.p), WorldKey(k, stack, t.q), WorldKey(k, stack, t.r));
    SpansKept(keys, keys', ts, k.quantize(t.p), k.quantize(t.q), k.quantize(t.r));
  }

  /** Drawing the first triangle and then the rest is drawing them all. */
  lemma {:induction false} MeshDrawnCons(k: Kernel, st: State, st1: State, r: State, tris: seq<MeshTriangle>)
    requires |tris| > 0 && Valid(st)
    requires MeshDrawn(k, st, [tris[0]], st1)
    requires MeshDrawn(k, st1, tris[1..], r)
    ensures MeshDrawn(k, st, tris, r)
  {
    ExtendsTrans(st, st1, r);
    MeshKeysCons(k, st.transformations, st.vertices, tris);
    RecordedCons(k, st, st1, r, tris);
  }

  lemma {:induction false} RecordedCons(k: Kernel, st: State, st1: State, r: State, tris: seq<MeshTriangle>)
    requires |tris| > 0 && Extends(st1, r)
    requires |st1.instanceTriangles| == |st.instanceTriangles| + 1
    requires |st1.symbolTriangles| == |st.symbolTriangles| + 1
    requires RecordedFrom(k, st.transformations, st1, |st.instanceTriangles|, |st.symbolTriangles|, [tris[0]])
    requires RecordedFrom(k, st.transformations, r, |st1.instanceTriangles|, |st1.symbolTriangles|, tris[1..])
    ensures RecordedFrom(k, st.transformations, r, |st.instanceTriangles|, |st.symbolTriangles|, tris)
  {
    var ni := |st.instanceTriangles|;
    var ns := |st.symbolTriangles|;
    var stack := st.transformations;
    assert [tris[0]][0] == tris[0];
    assert Recorded(k, stack, st1.vertices, st1.instanceTriangles[ni], st1.symbolTriangles[ns], tris[0]);
    RecordedKept(k, stack, st1.vertices, r.vertices, st1.instanceTriangles[ni],
                 st1.symbolTriangles[ns], tris[0]);
    assert r.instanceTriangles[..|st1.instanceTriangles|] == st1.instanceTriangles;
    assert r.symbolTriangles[..|st1.symbolTriangles|] == st1.symbolTriangles;
    assert r.instanceTriangles[ni] == st1.instanceTriangles[ni];
    assert r.symbolTriangles[ns] == st1.symbolTriangles[ns];
    forall i | 1 <= i < |tris|
      ensures Recorded(k, stack, r.vertices, r.instanceTriangles[ni + i], r.symbolTriangles[ns + i], tris[i])
    {
      assert tris[1..][i - 1] == tris[i];
      assert ni + i == |st1.instanceTriangles| + (i - 1);
      assert ns + i == |st1.symbolTriangles| + (i - 1);
    }
  }

  /** After a first triangle drew from `st` to `st1`, drawing `n` more is
      admissible exactly when drawing all `n + 1` from `st` was. */
  lemma AdmissibleStep(k: Kernel, st: State, st1: State, n: nat)
    requires |st.transformations| == 1 && st1.transformations == st.transformations
    requires st1.symbolTransform == Some(st.symbolTransform.GetOr(st.transformations[0]))
    ensures MeshAdmissible(k, st.symbolTransform, st.transformations, n + 1) <==>
              MeshAdmissible(k, st.symbolTransform, st.transformations, 1) &&
              MeshAdmissible(k, st1.symbolTransform, st1.transformations, n)
  {
  }

  /** DrawMesh: each triangle is recorded twice, instance space then symbol space. */
  function DrawMesh(k: Kernel, st: State, tris: seq<MeshTriangle>): (res: Result<State>)
    requires Valid(st)
    ensures res.Success? <==> MeshAdmissible(k, st.symbolTransform, st.transformations, |tris|)
    ensures res.Failure? && |st.transformations| != 1 ==> res.violation == SymbolLevel
    ensures res.Failure? && |st.transformations| == 1 ==> res.violation == SymbolTransformMismatch
    ensures res.Success? ==> MeshDrawn(k, st, tris, res.value)
    decreases |tris|
  {
    if |tris| == 0 then Success(st)
    else
      var st1 :- DrawMeshTriangle(k, st, tris[0]);
      var res := DrawMesh(k, st1, tris[1..]);
      AdmissibleStep(k, st, st1, |tris| - 1);
      if res.Success? then
        MeshDrawnCons(k, st, st1, res.value, tris);
        res
      else
        res
  }

  /** Drawing a concatenation of triangle lists draws the first list and
      then, if that passed, the second. */
  lemma {:induction false} DrawMeshAppend(k: Kernel, st: State, a: seq<MeshTriangle>, b: seq<MeshTriangle>)
    requires Valid(st)
    ensures DrawMesh(k, st, a + b) ==
              match DrawMesh(k, st, a)
              case Failure(v) => Failure(v)
              case Success(st1) => DrawMesh(k, st1, b)
    decreases |a|
  {
    if |a| == 0 {
      assert a + b == b;
    } else {
      assert (a + b)[0] == a[0];
      assert (a + b)[1..] == a[1..] + b;
      var first := DrawMeshTriangle(k, st, a[0]);
      if first.Success? {
        DrawMeshAppend(k, first.value, a[1..], b);
      }
    }
  }

  // ---------------------------------------------------------------------
  // What a traversal promises

  /** How many segments and triangle pairs a subtree records. */
  datatype Counts = Counts(segments: nat, triangles: nat) {
    function Plus(other: Counts): Counts {
      Counts(segments + other.segments, triangles + other.triangles)
    }
  }

  /** The outcome promised by a successful traversal of a subtree with
      counts `c`: invariant kept, records only appended (c.segments lines,
      c.triangles triangle pairs), stack depth restored, and a symbol
      transform newly captured at depth one is the active transform. */
  ghost predicate Traversed(st: State, r: State, c: Counts) {
    && Valid(r) && Extends(st, r)
    && r.transformations == st.transformations
    && |r.lines| == |st.lines| + c.segments
    && |r.instanceTriangles| == |st.instanceTriangles| + c.triangles
    && (st.symbolTransform.None? && r.symbolTransform.Some? && |st.transformations| == 1 ==>
          r.symbolTransform == Some(st.transformations[0]))
  }

  // ---------------------------------------------------------------------
  // Faces, edges and solids

  function DrawFace(k: Kernel, st: State, f: Face): (res: Result<State>)
    requires Valid(st)
    ensures res.Success? <==> MeshAdmissible(k, st.symbolTransform, st.transformations, |f.triangles|)
    ensures res.Success? ==> MeshDrawn(k, st, f.triangles, res.value)
  {
    DrawMesh(k, st, f.triangles)
  }

  /** The triangles of all faces, face after face. */
  function AllTriangles(faces: seq<Face>): (r: seq<MeshTriangle>)
    decreases |faces|
  {
    if |faces| == 0 then [] else faces[0].triangles + AllTriangles(faces[1..])
  }

  /** The faces of a solid, one after the other: the same as one mesh
      holding all their triangles. */
  function DrawFaces(k: Kernel, st: State, faces: seq<Face>): (res: Result<State>)
    requires Valid(st)
    ensures res == DrawMesh(k, st, AllTriangles(faces))
    decreases |faces|
  {
    if |faces| == 0 then Success(st)
    else
      DrawMeshAppend(k, st, faces[0].triangles, AllTriangles(faces[1..]));
      var st1 :- DrawFace(k, st, faces[0]);
      DrawFaces(k, st1, faces[1..])
  }

  /** Segments yielded by all edges together. */
  function EdgeSegments(edges: seq<Edge>): nat
    decreases |edges|
  {
    if |edges| == 0 then 0 else SegmentCount(|edges[0].points|) + EdgeSegments(edges[1..])
  }

  /** The edges of a solid: each is drawn as its own polyline. */
  function DrawEdges(k: Kernel, st: State, edges: seq<Edge>): (r: State)
    requires IndicesValid(st)
    ensures LinesAdded(st, r, EdgeSegments(edges))
    decreases |edges|
  {
    if |edges| == 0 then st
    else
      var st1 := DrawEdge(k, st, edges[0]);
      var r := DrawEdges(k, st1, edges[1..]);
      LinesAddedTrans(st, st1, r, SegmentCount(|edges[0].points|), EdgeSegments(edges[1..]));
      r
  }

  lemma LinesAddedTrans(st: State, st1: State, r: State, n1: nat, n2: nat)
    requires LinesAdded(st, st1, n1) && LinesAdded(st1, r, n2)
    ensures LinesAdded(st, r, n1 + n2)
  {
    ExtendsTrans(st, st1, r);
  }

  /** DrawSolid: all faces as meshes, then all edges as polylines. */
  function DrawSolid(k: Kernel, st: State, faces: seq<Face>, edges: seq<Edge>): (res: Result<State>)
    requires Valid(st)
    ensures res.Success? <==> MeshAdmissible(k, st.symbolTransform, st.transformations, |AllTriangles(faces)|)
    ensures res.Success? ==> res.value == DrawEdges(k, DrawMesh(k, st, AllTriangles(faces)).value, edges)
    ensures res.Success? ==> Traversed(st, res.value, Counts(EdgeSegments(edges), |AllTriangles(faces)|))
  {
    var st1 :- DrawFaces(k, st, faces);
    var r := DrawEdges(k, st1, edges);
    MeshTraversed(k, st, AllTriangles(faces), st1);
    LinesTraversed(st1, r, EdgeSegments(edges));
    TraversedTrans(st, st1, r, Counts(0, |AllTriangles(faces)|), Counts(EdgeSegments(edges), 0));
    Success(r)
  }

  // ---------------------------------------------------------------------
  // Geometry and elements

  function GeometryCounts(geo: GeometryElement): Counts
    decreases geo
  {
    match geo
    case NullGeometry => Counts(0, 0)
    case Geometry(objs) => ObjectsCounts(objs)
  }

  function ObjectsCounts(objs: seq<GeometryObject>): Counts
    decreases objs
  {
    if |objs| == 0 then Counts(0, 0) else ObjectCounts(objs[0]).Plus(ObjectsCounts(objs[1..]))
  }

  function ObjectCounts(o: GeometryObject): Counts
    decreases o
  {
    match o
    case Curve(pts) => Counts(SegmentCount(|pts|), 0)
    case PolyLine(pts) => Counts(SegmentCount(|pts|), 0)
    case Instance(_, sym) => GeometryCounts(sym)
    case Mesh(tris) => Counts(0, |tris|)
    case Solid(faces, edges) => Counts(EdgeSegments(edges), |AllTriangles(faces)|)
    case Other => Counts(0, 0)
  }

  function ElementCounts(e: Element): Counts
    decreases e
  {
    match e
    case Group(members, geo) => ElementsCounts(members).Plus(GeometryCounts(geo))
    case Plain(geo) => GeometryCounts(geo)
  }

  function ElementsCounts(es: seq<Element>): Counts
    decreases es
  {
    if |es| == 0 then Counts(0, 0) else ElementCounts(es[0]).Plus(ElementsCounts(es[1..]))
  }

  /** Two traversals one after the other make one traversal. */
  lemma TraversedTrans(st: State, st1: State, r: State, c1: Counts, c2: Counts)
    requires Traversed(st, st1, c1) && Traversed(st1, r, c2)
    ensures Traversed(st, r, c1.Plus(c2))
  {
    ExtendsTrans(st, st1, r);
  }

  /** DrawGeometry: a null geometry element is skipped; any other draws its
      objects in enumeration order. */
  function DrawGeometry(k: Kernel, st: State, geo: GeometryElement): (res: Result<State>)
    requires Valid(st)
    ensures geo.NullGeometry? ==> res == Success(st)
    ensures geo.Geometry? ==> res == DrawObjects(k, st, geo.objects)
    ensures res.Success? ==> Traversed(st, res.value, GeometryCounts(geo))
    decreases geo
  {
    match geo
    case NullGeometry => Success(st)
    case Geometry(objs) => DrawObjects(k, st, objs)
  }

  /** The objects of a geometry element, in enumeration order. */
  function DrawObjects(k: Kernel, st: State, objs: seq<GeometryObject>): (res: Result<State>)
    requires Valid(st)
    ensures |objs| == 0 ==> res == Success(st)
    ensures res.Success? ==> Traversed(st, res.value, ObjectsCounts(objs))
    decreases objs
  {
    if |objs| == 0 then Success(st)
    else
      var st1 :- DrawObject(k, st, objs[0]);
      DrawObjects(k, st1, objs[1..])
  }

  /** The type dispatch of DrawGeometry; unrecognised objects are skipped. */
  function DrawObject(k: Kernel, st: State, o: GeometryObject): (res: Result<State>)
    requires Valid(st)
    ensures o.Other? ==> res == Success(st)
    ensures o.Curve? ==> res == Success(DrawCurve(k, st, o.points))
    ensures o.PolyLine? ==> res == Success(DrawPolyLine(k, st, o.points))
    ensures o.Mesh? ==> res == DrawMesh(k, st, o.triangles)
    ensures o.Solid? ==> res == DrawSolid(k, st, o.faces, o.edges)
    ensures o.Instance? ==> res == DrawInstance(k, st, o)
    ensures res.Success? ==> Traversed(st, res.value, ObjectCounts(o))
    decreases o
  {
    match o
    case Curve(pts) =>
      var r := DrawCurve(k, st, pts);
      LinesTraversed(st, r, SegmentCount(|pts|));
      Success(r)
    case Instance(_, _) => DrawInstance(k, st, o)
    case Mesh(tris) =>
      MeshTraversedWhenDrawn(k, st, tris);
      DrawMesh(k, st, tris)
    case PolyLine(pts) =>
      var r := DrawPolyLine(k, st, pts);
      LinesTraversed(st, r, SegmentCount(|pts|));
      Success(r)
    case Solid(faces, edges) => DrawSolid(k, st, faces, edges)
    case Other => Success(st)
  }

  lemma LinesTraversed(st: State, r: State, n: nat)
    requires Valid(st) && LinesAdded(st, r, n)
    ensures Traversed(st, r, Counts(n, 0))
  {
  }

  lemma MeshTraversed(k: Kernel, st: State, tris: seq<MeshTriangle>, r: State)
    requires Valid(st) && MeshDrawn(k, st, tris, r)
    ensures Traversed(st, r, Counts(0, |tris|))
  {
  }

  lemma MeshTraversedWhenDrawn(k: Kernel, st: State, tris: seq<MeshTriangle>)
    requires Valid(st)
    ensures DrawMesh(k, st, tris).Success? ==>
              Traversed(st, DrawMesh(k, st, tris).value, Counts(0, |tris|))
  {
    var res := DrawMesh(k, st, tris);
    if res.Success? {
      MeshTraversed(k, st, tris, res.value);
    }
  }

  /** DrawInstance: a null symbol geometry is skipped; otherwise the
      instance transform is pushed, the symbol geometry drawn, and the
      transform popped. A nested instance breaks the one-level assertion. */
  function DrawInstance(k: Kernel, st: State, inst: GeometryObject): (res: Result<State>)
    requires Valid(st) && inst.Instance?
    ensures inst.symbolGeometry.NullGeometry? ==> res == Success(st)
    ensures inst.symbolGeometry.Geometry? && |st.transformations| == 1 ==> res == Failure(NestedTransform)
    ensures res.Success? ==> Traversed(st, res.value, ObjectCounts(inst))
    ensures res.Success? && st.symbolTransform.None? && res.value.symbolTransform.Some? ==>
              res.value.symbolTransform == Some(inst.transform)
    decreases inst, 0
  {
    match inst.symbolGeometry
    case NullGeometry => Success(st)
    case Geometry(_) =>
      if |st.transformations| != 0 then Failure(NestedTransform)
      else
        var st1 := st.(transformations := Push(st.transformations, inst.transform));
        var st2 :- DrawGeometry(k, st1, inst.symbolGeometry);
        Success(st2.(transformations := Pop(st2.transformations)))
  }

  /** DrawElement: a group first draws every member element, and then,
      like any element, its own geometry. */
  function DrawElement(k: Kernel, st: State, e: Element): (res: Result<State>)
    requires Valid(st)
    ensures e.Plain? ==> res == DrawGeometry(k, st, e.geometry)
    ensures res.Success? ==> Traversed(st, res.value, ElementCounts(e))
    decreases e
  {
    match e
    case Group(members, geo) =>
      var st1 :- DrawElements(k, st, members);
      DrawGeometry(k, st1, geo)
    case Plain(geo) => DrawGeometry(k, st, geo)
  }

  function DrawElements(k: Kernel, st: State, es: seq<Element>): (res: Result<State>)
    requires Valid(st)
    ensures res.Success? ==> Traversed(st, res.value, ElementsCounts(es))
    decreases es
  {
    if |es| == 0 then Success(st)
    else
      var st1 :- DrawElement(k, st, es[0]);
      DrawElements(k, st1, es[1..])
  }

  // ---------------------------------------------------------------------
  // Drawing order

  /** Drawing a concatenation of edges draws the first edges and then the rest. */
  lemma {:induction false} DrawEdgesAppend(k: Kernel, st: State, a: seq<Edge>, b: seq<Edge>)
    requires IndicesValid(st)
    ensures DrawEdges(k, st, a + b) == DrawEdges(k, DrawEdges(k, st, a), b)
    decreases |a|
  {
    if |a| == 0 {
      assert a + b == b;
    } else {
      assert (a + b)[0] == a[0];
      assert (a + b)[1..] == a[1..] + b;
      DrawEdgesAppend(k, DrawEdge(k, st, a[0]), a[1..], b);
    }
  }

  /** A single edge is drawn as its own polyline. */
  lemma OneEdge(k: Kernel, st: State, e: Edge)
    requires IndicesValid(st)
    ensures DrawEdges(k, st, [e]) == DrawEdge(k, st, e)
  {
    assert [e][0] == e && [e][1..] == [];
  }

  /** Drawing a concatenation of geometry objects draws the first objects
      and then, if that passed, the rest. */
  lemma {:induction false} DrawObjectsAppend(k: Kernel, st: State, a: seq<GeometryObject>, b: seq<GeometryObject>)
    requires Valid(st)
    ensures DrawObjects(k, st, a + b) ==
              match DrawObjects(k, st, a)
              case Failure(v) => Failure(v)
              case Success(st1) => DrawObjects(k, st1, b)
    decreases |a|
  {
    if |a| == 0 {
      assert a + b == b;
    } else {
      assert (a + b)[0] == a[0];
      assert (a + b)[1..] == a[1..] + b;
      var first := DrawObject(k, st, a[0]);
      if first.Success? {
        DrawObjectsAppend(k, first.value, a[1..], b);
      }
    }
  }

  /** Drawing a concatenation of elements draws the first elements and
      then, if that passed, the rest. */
  lemma {:induction false} DrawElementsAppend(k: Kernel, st: State, a: seq<Element>, b: seq<Element>)
    requires Valid(st)
    ensures DrawElements(k, st, a + b) ==
              match DrawElements(k, st, a)
              case Failure(v) => Failure(v)
              case Success(st1) => DrawElements(k, st1, b)
    decreases |a|
  {
    if |a| == 0 {
      assert a + b == b;
    } else {
      assert (a + b)[0] == a[0];
      assert (a + b)[1..] == a[1..] + b;
      var first := DrawElement(k, st, a[0]);
      if first.Success? {
        DrawElementsAppend(k, first.value, a[1..], b);
      }
    }
  }

  /** A list of one element draws just that element. */
  lemma OneElement(k: Kernel, st: State, e: Element)
    requires Valid(st)
    ensures DrawElements(k, st, [e]) == DrawElement(k, st, e)
  {
    assert [e][0] == e && [e][1..] == [];
  }

  /** A group draws exactly like its member list followed by a plain
      element carrying the group's own geometry: every member's records
      come before the records of the group's geometry. */
  lemma GroupMembersFirst(k: Kernel, st: State, members: seq<Element>, geo: GeometryElement)
    requires Valid(st)
    ensures DrawElement(k, st, Group(members, geo)) == DrawElements(k, st, members + [Plain(geo)])
  {
    DrawElementsAppend(k, st, members, [Plain(geo)]);
    var m := DrawElements(k, st, members);
    if m.Success? {
      OneElement(k, m.value, Plain(geo));
    }
  }

  /** An instance with a symbol geometry, reached with an empty stack,
      draws that geometry under its own transform alone and pops it again. */
  lemma DrawInstanceUnder(k: Kernel, st: State, inst: GeometryObject)
    requires Valid(st) && inst.Instance? && inst.symbolGeometry.Geometry?
    requires st.transformations == []
    ensures DrawInstance(k, st, inst) ==
              match DrawGeometry(k, st.(transformations := [inst.transform]), inst.symbolGeometry)
              case Failure(v) => Failure(v)
              case Success(s) => Success(s.(transformations := []))
  {
    var st1 := st.(transformations := Push(st.transformations, inst.transform));
    assert st1 == st.(transformations := [inst.transform]);
    var g := DrawGeometry(k, st1, inst.symbolGeometry);
    if g.Success? {
      assert Pop(g.value.transformations) == [];
      assert DrawInstance(k, st, inst) == Success(g.value.(transformations := []));
    } else {
      assert DrawInstance(k, st, inst) == Failure(g.violation);
    }
  }

  // ---------------------------------------------------------------------
  // When a traversal succeeds

  /** The stack active at each of `n` triangle pairs drawn under `stack`. */
  ghost function Repeat(stack: seq<Transform>, n: nat): seq<seq<Transform>> {
    seq(n, i => stack)
  }

  /** The assertions of every symbol triangle, over the triangle pairs of a
      whole subtree in drawing order, pair i being drawn under `stacks[i]`:
      each is drawn exactly one level deep, and each after the first (each
      at all, if a transform was `captured` before) under a transform
      AlmostEqual to the captured one, that is `captured` or else the
      transform of the first pair. */
  ghost predicate PairsAdmissible(k: Kernel, captured: Option<Transform>, stacks: seq<seq<Transform>>) {
    && (forall i :: 0 <= i < |stacks| ==> |stacks[i]| == 1)
    && (forall i :: 0 <= i < |stacks| && |stacks[0]| == 1 && |stacks[i]| == 1 && (captured.Some? || i > 0) ==>
          k.almostEqual(captured.GetOr(stacks[0][0]), stacks[i][0]))
  }

  /** The symbol transform once those pairs are drawn: the one captured
      before, or else the transform of the first pair. */
  ghost function CapturedAfter(captured: Option<Transform>, stacks: seq<seq<Transform>>): Option<Transform> {
    if |stacks| > 0 && |stacks[0]| > 0 then Some(captured.GetOr(stacks[0][0])) else captured
  }

  /** The stacks of the triangle pairs a subtree draws, in drawing order,
      when it is entered with `stack`. */
  ghost function GeometryStacks(geo: GeometryElement, stack: seq<Transform>): seq<seq<Transform>>
    decreases geo
  {
    match geo
    case NullGeometry => []
    case Geometry(objs) => ObjectsStacks(objs, stack)
  }

  ghost function ObjectsStacks(objs: seq<GeometryObject>, stack: seq<Transform>): seq<seq<Transform>>
    decreases objs
  {
    if |objs| == 0 then [] else ObjectStacks(objs[0], stack) + ObjectsStacks(objs[1..], stack)
  }

  ghost function ObjectStacks(o: GeometryObject, stack: seq<Transform>): seq<seq<Transform>>
    decreases o
  {
    match o
    case Instance(t, sym) => GeometryStacks(sym, stack + [t])
    case Mesh(tris) => Repeat(stack, |tris|)
    case Solid(faces, _) => Repeat(stack, |AllTriangles(faces)|)
    case _ => []
  }

  ghost function ElementStacks(e: Element, stack: seq<Transform>): seq<seq<Transform>>
    decreases e
  {
    match e
    case Group(members, geo) => ElementsStacks(members, stack) + GeometryStacks(geo, stack)
    case Plain(geo) => GeometryStacks(geo, stack)
  }

  ghost function ElementsStacks(es: seq<Element>, stack: seq<Transform>): seq<seq<Transform>>
    decreases es
  {
    if |es| == 0 then [] else ElementStacks(es[0], stack) + ElementsStacks(es[1..], stack)
  }

  /** Every instance of the subtree that has a symbol geometry is reached
      with an empty stack, when the subtree is entered `depth` levels deep:
      no push breaks the one-level assertion. */
  ghost predicate GeometryOneLevel(geo: GeometryElement, depth: nat)
    decreases geo
  {
    match geo
    case NullGeometry => true
    case Geometry(objs) => ObjectsOneLevel(objs, depth)
  }

  ghost predicate ObjectsOneLevel(objs: seq<GeometryObject>, depth: nat)
    decreases objs
  {
    |objs| == 0 || (ObjectOneLevel(objs[0], depth) && ObjectsOneLevel(objs[1..], depth))
  }

  ghost predicate ObjectOneLevel(o: GeometryObject, depth: nat)
    decreases o
  {
    match o
    case Instance(_, sym) => sym.NullGeometry? || (depth == 0 && GeometryOneLevel(sym, 1))
    case _ => true
  }

  ghost predicate ElementOneLevel(e: Element, depth: nat)
    decreases e
  {
    match e
    case Group(members, geo) => ElementsOneLevel(members, depth) && GeometryOneLevel(geo, depth)
    case Plain(geo) => GeometryOneLevel(geo, depth)
  }

  ghost predicate ElementsOneLevel(es: seq<Element>, depth: nat)
    decreases es
  {
    |es| == 0 || (ElementOneLevel(es[0], depth) && ElementsOneLevel(es[1..], depth))
  }

  /** A traversal from `st` whose triangle pairs are drawn under `stacks`
      and whose pushes are one level deep exactly when `oneLevel` holds
      gives `res`: it succeeds exactly when no push and no symbol triangle
      breaks an assertion, and then holds the symbol transform captured
      by the first pair (or the one captured before). A failure names a
      broken push assertion only when some push is nested, and a broken
      symbol triangle assertion only when some pair does not pass. */
  ghost predicate SucceedsWhen(k: Kernel, st: State, stacks: seq<seq<Transform>>, oneLevel: bool, res: Result<State>) {
    && (res.Success? <==> oneLevel && PairsAdmissible(k, st.symbolTransform, stacks))
    && (res.Success? ==> res.value.symbolTransform == CapturedAfter(st.symbolTransform, stacks))
    && (res.Failure? && res.violation == NestedTransform ==> !oneLevel)
    && (res.Failure? && res.violation != NestedTransform ==> !PairsAdmissible(k, st.symbolTransform, stacks))
  }

  /** The pairs of two subtrees drawn one after the other pass exactly when
      the first pass and the second pass against what the first captured. */
  lemma PairsAdmissibleAppend(k: Kernel, c: Option<Transform>, a: seq<seq<Transform>>, b: seq<seq<Transform>>)
    ensures PairsAdmissible(k, c, a + b) <==>
              PairsAdmissible(k, c, a) && PairsAdmissible(k, CapturedAfter(c, a), b)
    ensures PairsAdmissible(k, c, a + b) ==> CapturedAfter(c, a + b) == CapturedAfter(CapturedAfter(c, a), b)
  {
    if |a| == 0 {
      assert a + b == b;
    } else {
      var ab := a + b;
      assert ab[0] == a[0];
      assert forall i :: 0 <= i < |a| ==> ab[i] == a[i];
      assert forall j :: 0 <= j < |b| ==> ab[|a| + j] == b[j];
      if PairsAdmissible(k, c, a) && PairsAdmissible(k, CapturedAfter(c, a), b) {
        forall i | 0 <= i < |ab| && |ab[0]| == 1 && |ab[i]| == 1 && (c.Some? || i > 0)
          ensures k.almostEqual(c.GetOr(ab[0][0]), ab[i][0])
        {
          if i >= |a| {
            assert ab[i] == b[i - |a|];
          }
        }
      }
    }
  }

  /** Drawing `a` with result `r1` and then, if it passed, `b` with result
      `r2` succeeds exactly when both could, and captures accordingly. */
  lemma SucceedsWhenSeq(k: Kernel, st: State, r1: Result<State>, r2: Result<State>,
                        a: seq<seq<Transform>>, b: seq<seq<Transform>>, ok1: bool, ok2: bool)
    requires SucceedsWhen(k, st, a, ok1, r1)
    requires r1.Success? ==> SucceedsWhen(k, r1.value, b, ok2, r2)
    ensures SucceedsWhen(k, st, a + b, ok1 && ok2, if r1.Success? then r2 else r1)
  {
    PairsAdmissibleAppend(k, st.symbolTransform, a, b);
  }

  /** The success condition of the mesh loop, in terms of the stacks of its pairs. */
  lemma MeshAdmissibleRepeat(k: Kernel, c: Option<Transform>, stack: seq<Transform>, n: nat)
    ensures MeshAdmissible(k, c, stack, n) <==> PairsAdmissible(k, c, Repeat(stack, n))
    ensures n > 0 && |stack| > 0 ==> CapturedAfter(c, Repeat(stack, n)) == Some(c.GetOr(stack[0]))
  {
    var s := Repeat(stack, n);
    if n > 0 {
      assert s[0] == stack;
      if n > 1 {
        assert s[1] == stack;
      }
    }
  }

  lemma DrawMeshSuccess(k: Kernel, st: State, tris: seq<MeshTriangle>)
    requires Valid(st)
    ensures SucceedsWhen(k, st, Repeat(st.transformations, |tris|), true, DrawMesh(k, st, tris))
  {
    MeshAdmissibleRepeat(k, st.symbolTransform, st.transformations, |tris|);
  }

  lemma DrawSolidSuccess(k: Kernel, st: State, faces: seq<Face>, edges: seq<Edge>)
    requires Valid(st)
    ensures SucceedsWhen(k, st, Repeat(st.transformations, |AllTriangles(faces)|), true,
                         DrawSolid(k, st, faces, edges))
  {
    MeshAdmissibleRepeat(k, st.symbolTransform, st.transformations, |AllTriangles(faces)|);
  }

  /** DrawGeometry succeeds exactly when every push is one level deep and
      every symbol triangle of the subtree, in drawing order, passes its
      assertions; it then holds the transform the first pair captured. */
  lemma {:induction false} DrawGeometrySuccess(k: Kernel, st: State, geo: GeometryElement)
    requires Valid(st)
    ensures SucceedsWhen(k, st, GeometryStacks(geo, st.transformations),
                         GeometryOneLevel(geo, |st.transformations|), DrawGeometry(k, st, geo))
    decreases geo
  {
    match geo
    case NullGeometry =>
    case Geometry(objs) => DrawObjectsSuccess(k, st, objs);
  }

  lemma {:induction false} DrawObjectsSuccess(k: Kernel, st: State, objs: seq<GeometryObject>)
    requires Valid(st)
    ensures SucceedsWhen(k, st, ObjectsStacks(objs, st.transformations),
                         ObjectsOneLevel(objs, |st.transformations|), DrawObjects(k, st, objs))
    decreases objs
  {
    if |objs| > 0 {
      var stack := st.transformations;
      var r1 := DrawObject(k, st, objs[0]);
      DrawObjectSuccess(k, st, objs[0]);
      if r1.Success? {
        DrawObjectsSuccess(k, r1.value, objs[1..]);
        SucceedsWhenSeq(k, st, r1, DrawObjects(k, r1.value, objs[1..]),
                        ObjectStacks(objs[0], stack), ObjectsStacks(objs[1..], stack),
                        ObjectOneLevel(objs[0], |stack|), ObjectsOneLevel(objs[1..], |stack|));
      } else {
        SucceedsWhenSeq(k, st, r1, r1,
                        ObjectStacks(objs[0], stack), ObjectsStacks(objs[1..], stack),
                        ObjectOneLevel(objs[0], |stack|), ObjectsOneLevel(objs[1..], |stack|));
      }
    }
  }

  lemma {:induction false} DrawObjectSuccess(k: Kernel, st: State, o: GeometryObject)
    requires Valid(st)
    ensures SucceedsWhen(k, st, ObjectStacks(o, st.transformations),
                         ObjectOneLevel(o, |st.transformations|), DrawObject(k, st, o))
    decreases o
  {
    match o
    case Instance(_, _) => DrawInstanceSuccess(k, st, o);
    case Mesh(tris) => DrawMeshSuccess(k, st, tris);
    case Solid(faces, edges) => DrawSolidSuccess(k, st, faces, edges);
    case _ =>
  }

  /** DrawInstance succeeds exactly when it is reached with an empty stack
      (or has no symbol geometry) and its symbol geometry, drawn under the
      instance transform, passes. */
  lemma {:induction false} DrawInstanceSuccess(k: Kernel, st: State, inst: GeometryObject)
    requires Valid(st) && inst.Instance?
    ensures SucceedsWhen(k, st, ObjectStacks(inst, st.transformations),
                         ObjectOneLevel(inst, |st.transformations|), DrawInstance(k, st, inst))
    decreases inst, 0
  {
    if inst.symbolGeometry.Geometry? && |st.transformations| == 0 {
      var st1 := st.(transformations := [inst.transform]);
      assert st.transformations + [inst.transform] == [inst.transform];
      DrawGeometrySuccess(k, st1, inst.symbolGeometry);
      DrawInstanceUnder(k, st, inst);
    }
  }

  /** DrawElement succeeds exactly when every push is one level deep and
      every symbol triangle of the element and its members, in drawing
      order, passes its assertions. */
  lemma {:induction false} DrawElementSuccess(k: Kernel, st: State, e: Element)
    requires Valid(st)
    ensures SucceedsWhen(k, st, ElementStacks(e, st.transformations),
                         ElementOneLevel(e, |st.transformations|), DrawElement(k, st, e))
    decreases e
  {
    var stack := st.transformations;
    match e
    case Plain(geo) => DrawGeometrySuccess(k, st, geo);
    case Group(members, geo) =>
      var r1 := DrawElements(k, st, members);
      DrawElementsSuccess(k, st, members);
      if r1.Success? {
        DrawGeometrySuccess(k, r1.value, geo);
        SucceedsWhenSeq(k, st, r1, DrawGeometry(k, r1.value, geo),
                        ElementsStacks(members, stack), GeometryStacks(geo, stack),
                        ElementsOneLevel(members, |stack|), GeometryOneLevel(geo, |stack|));
      } else {
        SucceedsWhenSeq(k, st, r1, r1,
                        ElementsStacks(members, stack), GeometryStacks(geo, stack),
                        ElementsOneLevel(members, |stack|), GeometryOneLevel(geo, |stack|));
      }
  }

  lemma {:induction false} DrawElementsSuccess(k: Kernel, st: State, es: seq<Element>)
    requires Valid(st)
    ensures SucceedsWhen(k, st, ElementsStacks(es, st.transformations),
                         ElementsOneLevel(es, |st.transformations|), DrawElements(k, st, es))
    decreases es
  {
    if |es| > 0 {
      var stack := st.transformations;
      var r1 := DrawElement(k, st, es[0]);
      DrawElementSuccess(k, st, es[0]);
      if r1.Success? {
        DrawElementsSuccess(k, r1.value, es[1..]);
        SucceedsWhenSeq(k, st, r1, DrawElements(k, r1.value, es[1..]),
                        ElementStacks(es[0], stack), ElementsStacks(es[1..], stack),
                        ElementOneLevel(es[0], |stack|), ElementsOneLevel(es[1..], |stack|));
      } else {
        SucceedsWhenSeq(k, st, r1, r1,
                        ElementStacks(es[0], stack), ElementsStacks(es[1..], stack),
                        ElementOneLevel(es[0], |stack|), ElementsOneLevel(es[1..], |stack|));
      }
    }
  }
}

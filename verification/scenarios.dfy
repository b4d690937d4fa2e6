/** Whole-collector scenarios over abstract points: what a fresh collector
    holds after drawing small geometry trees. */
module Scenarios {
  import opened Results
  import opened Geometry
  import opened VertexPool
  import opened TransformStack
  import opened IndexRecords
  import opened Collector
  import opened Traversal

  /** Three different keys pooled into an empty pool get indices 0, 1, 2. */
  lemma FreshTriangleKeys(k: Kernel, st: State, p: Point, q: Point, r: Point)
    requires |st.vertices| == 0
    requires k.quantize(p) != k.quantize(q) && k.quantize(p) != k.quantize(r)
    requires k.quantize(q) != k.quantize(r)
    ensures PooledTriangle(k, st, p, q, r) ==
              (st.(vertices := [k.quantize(p), k.quantize(q), k.quantize(r)]), TriangleIndices(0, 1, 2))
  {
    var (s1, a) := VertexIndexOf(k, st, p);
    assert s1.vertices == [k.quantize(p)];
    var (s2, b) := VertexIndexOf(k, s1, q);
    assert s2.vertices == [k.quantize(p), k.quantize(q)];
    var (s3, c) := VertexIndexOf(k, s2, r);
    assert s3.vertices == [k.quantize(p), k.quantize(q), k.quantize(r)];
  }

  /** The same three keys pooled again are found at 0, 1, 2. */
  lemma KnownTriangleKeys(k: Kernel, st: State, p: Point, q: Point, r: Point)
    requires Distinct(st.vertices)
    requires st.vertices == [k.quantize(p), k.quantize(q), k.quantize(r)]
    ensures PooledTriangle(k, st, p, q, r) == (st, TriangleIndices(0, 1, 2))
  {
    VertexIndexOfKnown(k, st, p, 0);
    VertexIndexOfKnown(k, st, q, 1);
    VertexIndexOfKnown(k, st, r, 2);
  }

  /** Records one mesh triangle at depth one, from a state whose pool is
      empty, when the transform fixes the three corners and they quantise
      to three different keys. */
  lemma FirstTriangle(k: Kernel, st: State, t: MeshTriangle)
    requires Valid(st) && |st.vertices| == 0 && |st.transformations| == 1
    requires st.symbolTransform.None?
    requires k.ofPoint(st.transformations[0], t.p) == t.p
    requires k.ofPoint(st.transformations[0], t.q) == t.q
    requires k.ofPoint(st.transformations[0], t.r) == t.r
    requires k.quantize(t.p) != k.quantize(t.q) && k.quantize(t.p) != k.quantize(t.r)
    requires k.quantize(t.q) != k.quantize(t.r)
    ensures DrawMeshTriangle(k, st, t) == Success(st.(
              vertices := [k.quantize(t.p), k.quantize(t.q), k.quantize(t.r)],
              instanceTriangles := st.instanceTriangles + [TriangleIndices(0, 1, 2)],
              symbolTriangles := st.symbolTriangles + [TriangleIndices(0, 1, 2)],
              symbolTransform := Some(st.transformations[0])))
  {
    var stack := st.transformations;
    var keys := [k.quantize(t.p), k.quantize(t.q), k.quantize(t.r)];
    assert TransformPoint(k, stack, t.p) == t.p && TransformPoint(k, stack, t.q) == t.q;
    assert TransformPoint(k, stack, t.r) == t.r;
    FreshTriangleKeys(k, st, t.p, t.q, t.r);
    var st1 := st.(vertices := keys, instanceTriangles := st.instanceTriangles + [TriangleIndices(0, 1, 2)]);
    assert DrawInstanceTriangle(k, st, t.p, t.q, t.r) == st1;
    var st1' := st1.(symbolTransform := Some(stack[0]));
    KnownTriangleKeys(k, st1', t.p, t.q, t.r);
    assert DrawSymbolTriangle(k, st1, t.p, t.q, t.r) ==
             st1'.(symbolTriangles := st1'.symbolTriangles + [TriangleIndices(0, 1, 2)]);
  }

  /** An instance whose symbol geometry is a single mesh, drawn at depth
      zero, draws the mesh under the instance transform and pops it again. */
  lemma MeshInsideInstance(k: Kernel, st: State, a: Transform, tris: seq<MeshTriangle>)
    requires Valid(st) && st.transformations == []
    ensures DrawInstance(k, st, Instance(a, Geometry([Mesh(tris)]))) ==
              match DrawMesh(k, st.(transformations := [a]), tris)
              case Failure(v) => Failure(v)
              case Success(s) => Success(s.(transformations := []))
  {
    var st1 := st.(transformations := [a]);
    assert Push(st.transformations, a) == [a];
    OneObject(k, st1, Mesh(tris));
    var m := DrawMesh(k, st1, tris);
    assert DrawGeometry(k, st1, Geometry([Mesh(tris)])) == m;
    if m.Success? {
      assert Pop(m.value.transformations) == [];
    }
  }


  /** A one-triangle mesh is one iteration of the mesh loop. */
  lemma SingleTriangleMesh(k: Kernel, st: State, t: MeshTriangle)
    requires Valid(st)
    ensures DrawMesh(k, st, [t]) == DrawMeshTriangle(k, st, t)
  {
    assert [t][1..] == [];
  }

  /** One triangle drawn through an instance whose transform fixes its
      corners: three pooled vertices, "0 1 2" in both index strings, the
      instance transform captured and the stack empty again. */
  lemma SingleTriangleInstance(k: Kernel, a: Transform, t: MeshTriangle)
    requires k.ofPoint(a, t.p) == t.p && k.ofPoint(a, t.q) == t.q && k.ofPoint(a, t.r) == t.r
    requires k.quantize(t.p) != k.quantize(t.q) && k.quantize(t.p) != k.quantize(t.r)
    requires k.quantize(t.q) != k.quantize(t.r)
    ensures var res := DrawInstance(k, NewCollector(), Instance(a, Geometry([Mesh([t])])));
            && res.Success?
            && res.value.vertices == [k.quantize(t.p), k.quantize(t.q), k.quantize(t.r)]
            && InstanceTriangleIndices(res.value) == "0 1 2"
            && SymbolTriangleIndices(res.value) == "0 1 2"
            && res.value.symbolTransform == Some(a)
            && res.value.transformations == []
  {
    var tri := [TriangleIndices(0, 1, 2)];
    var keys := [k.quantize(t.p), k.quantize(t.q), k.quantize(t.r)];
    SingleTriangleInstanceState(k, a, t);
    ZeroOneTwoStrings(State(keys, [], tri, Some(a), tri, []));
  }

  /** The state SingleTriangleInstance ends in. */
  lemma SingleTriangleInstanceState(k: Kernel, a: Transform, t: MeshTriangle)
    requires k.ofPoint(a, t.p) == t.p && k.ofPoint(a, t.q) == t.q && k.ofPoint(a, t.r) == t.r
    requires k.quantize(t.p) != k.quantize(t.q) && k.quantize(t.p) != k.quantize(t.r)
    requires k.quantize(t.q) != k.quantize(t.r)
    ensures DrawInstance(k, NewCollector(), Instance(a, Geometry([Mesh([t])]))) ==
              Success(State([k.quantize(t.p), k.quantize(t.q), k.quantize(t.r)], [],
                            [TriangleIndices(0, 1, 2)], Some(a), [TriangleIndices(0, 1, 2)], []))
  {
    SingleTriangleUnder(k, a, t);
    MeshInsideInstance(k, NewCollector(), a, [t]);
  }

  /** A state holding the one triangle (0, 1, 2) in both lists prints it as "0 1 2". */
  lemma ZeroOneTwoStrings(st: State)
    requires st.instanceTriangles == [TriangleIndices(0, 1, 2)]
    requires st.symbolTriangles == [TriangleIndices(0, 1, 2)]
    ensures InstanceTriangleIndices(st) == "0 1 2" && SymbolTriangleIndices(st) == "0 1 2"
  {
    ZeroOneTwo();
  }

  /** The mesh step of SingleTriangleInstance: the fresh collector with the
      instance transform pushed draws the triangle as the first one. */
  lemma SingleTriangleUnder(k: Kernel, a: Transform, t: MeshTriangle)
    requires k.ofPoint(a, t.p) == t.p && k.ofPoint(a, t.q) == t.q && k.ofPoint(a, t.r) == t.r
    requires k.quantize(t.p) != k.quantize(t.q) && k.quantize(t.p) != k.quantize(t.r)
    requires k.quantize(t.q) != k.quantize(t.r)
    ensures DrawMesh(k, NewCollector().(transformations := [a]), [t]) ==
              Success(State([k.quantize(t.p), k.quantize(t.q), k.quantize(t.r)], [],
                            [TriangleIndices(0, 1, 2)], Some(a), [TriangleIndices(0, 1, 2)], [a]))
  {
    var st1 := NewCollector().(transformations := [a]);
    var tri := [TriangleIndices(0, 1, 2)];
    assert st1 == State([], [], [], None, [], [a]);
    assert [] + tri == tri;
    FirstTriangle(k, st1, t);
    SingleTriangleMesh(k, st1, t);
  }

  /** A geometry element holding one object draws just that object. */
  lemma OneObject(k: Kernel, st: State, o: GeometryObject)
    requires Valid(st)
    ensures DrawGeometry(k, st, Geometry([o])) == DrawObject(k, st, o)
  {
    OneObjectList(k, st, o);
  }

  lemma OneObjectList(k: Kernel, st: State, o: GeometryObject)
    requires Valid(st)
    ensures DrawObjects(k, st, [o]) == DrawObject(k, st, o)
  {
    assert [o][0] == o && [o][1..] == [];
  }

  /** After a first object that draws, the rest is drawn from where it left off. */
  lemma ObjectsCons(k: Kernel, st: State, objs: seq<GeometryObject>)
    requires Valid(st) && |objs| > 0 && DrawObject(k, st, objs[0]).Success?
    ensures DrawObjects(k, st, objs) == DrawObjects(k, DrawObject(k, st, objs[0]).value, objs[1..])
  {
  }

  /** A plain element with two curves draws the first curve and then the
      second, so the first curve's points are pooled first. */
  lemma TwoCurvesInOrder(k: Kernel, st: State, first: seq<Point>, second: seq<Point>)
    requires Valid(st)
    ensures DrawElement(k, st, Plain(Geometry([Curve(first), Curve(second)]))) ==
              Success(DrawCurve(k, DrawCurve(k, st, first), second))
  {
    var st1 := DrawCurve(k, st, first);
    assert [Curve(first), Curve(second)] == [Curve(first)] + [Curve(second)];
    DrawObjectsAppend(k, st, [Curve(first)], [Curve(second)]);
    OneObjectList(k, st, Curve(first));
    OneObjectList(k, st1, Curve(second));
  }

  /** A mesh drawn straight from an element, outside any instance, breaks
      the single-level assertion of the symbol triangle. */
  lemma MeshOutsideInstance(k: Kernel, t: MeshTriangle)
    ensures DrawElement(k, NewCollector(), Plain(Geometry([Mesh([t])]))) == Failure(SymbolLevel)
  {
    var st := NewCollector();
    OneObject(k, st, Mesh([t]));
  }

  /** An instance inside an instance's symbol geometry breaks the
      one-level assertion of the transform stack. */
  lemma NestedInstance(k: Kernel, a: Transform, b: Transform, g: GeometryElement)
    requires g.Geometry?
    ensures DrawInstance(k, NewCollector(), Instance(a, Geometry([Instance(b, g)]))) == Failure(NestedTransform)
  {
    var st1 := NewCollector().(transformations := [a]);
    assert Push(NewCollector().transformations, a) == [a];
    OneObject(k, st1, Instance(b, g));
    assert DrawObject(k, st1, Instance(b, g)) == Failure(NestedTransform);
  }

  /** Two instances whose transforms are not AlmostEqual, each holding one
      triangle: the first captures its transform, the second fails the
      symbol transform assertion. */
  lemma MismatchDetected(k: Kernel, a: Transform, b: Transform, t: MeshTriangle, u: MeshTriangle)
    requires !k.almostEqual(a, b)
    ensures DrawObjects(k, NewCollector(), [Instance(a, Geometry([Mesh([t])])), Instance(b, Geometry([Mesh([u])]))])
              == Failure(SymbolTransformMismatch)
  {
    var st0 := NewCollector();
    var first := Instance(a, Geometry([Mesh([t])]));
    var second := Instance(b, Geometry([Mesh([u])]));
    var objs := [first, second];
    var s1 := FirstInstanceCaptures(k, a, t);
    ObjectsCons(k, st0, objs);
    assert objs[1..] == [second];
    OneObjectList(k, s1, second);
    MeshInsideInstance(k, s1, b, [u]);
    assert DrawMesh(k, s1.(transformations := [b]), [u]) == Failure(SymbolTransformMismatch);
  }

  /** The first instance of MismatchDetected succeeds, leaves the stack
      empty and captures its transform. */
  lemma FirstInstanceCaptures(k: Kernel, a: Transform, t: MeshTriangle) returns (s1: State)
    ensures Valid(s1) && s1.transformations == [] && s1.symbolTransform == Some(a)
    ensures DrawObject(k, NewCollector(), Instance(a, Geometry([Mesh([t])]))) == Success(s1)
  {
    var st0 := NewCollector();
    var inst := Instance(a, Geometry([Mesh([t])]));
    MeshInsideInstance(k, st0, a, [t]);
    var m := DrawMesh(k, st0.(transformations := [a]), [t]);
    assert MeshAdmissible(k, None, [a], 1);
    assert m.Success? && m.value.symbolTransform == Some(a);
    s1 := m.value.(transformations := []);
    assert DrawInstance(k, st0, inst) == Success(s1);
    assert DrawObject(k, st0, inst) == DrawInstance(k, st0, inst);
  }

  /** A group without members draws like a plain element with the same geometry. */
  lemma EmptyGroup(k: Kernel, st: State, g: GeometryElement)
    requires Valid(st)
    ensures DrawElement(k, st, Group([], g)) == DrawElement(k, st, Plain(g))
  {
    assert DrawElements(k, st, []) == Success(st);
  }

  /** The triangle over the first three pool entries prints as "0 1 2". */
  lemma ZeroOneTwo()
    ensures IndexString([TriangleIndices(0, 1, 2)]) == "0 1 2"
  {
    var t := TriangleIndices(0, 1, 2);
    assert TriangleStrings([t]) == [TriangleString(t)];
    assert NatToString(0) == "0" && NatToString(1) == "1" && NatToString(2) == "2";
  }
}

# TriangleCollector, modelled in Dafny

This project models the bookkeeping core of `TriangleCollector` in the
ExportSymbolInstanceGeo add-in. The collector walks the geometry of a Revit
element and fills one state:

- a vertex pool that welds quantised points (IntPoint3d) into indices;
- a list of line segments;
- two parallel triangle lists. Each mesh triangle is recorded once in
  instance space, with its corners transformed, and once in symbol space,
  with its raw corners;
- the captured symbol transform;
- a transform stack at most one level deep.

It then prints the triangle lists as index strings.

Everything the host supplies is abstract: points, transforms, quantised
keys, `Transform.OfPoint`, `Transform.AlmostEqual`, the IntPoint3d
quantisation, the Transform basis properties and the point formatters. They
are fields of a `Kernel` value, and nothing is assumed about them; in
particular AlmostEqual is not assumed reflexive. The geometry tree (elements,
groups, geometry elements, curves, polylines, instances, meshes, solids) is a
datatype. It holds the points and triangles that the host's `Tessellate`,
`GetCoordinates`, `Triangulate`, `Faces`, `Edges` and `GetMemberIds` return.
The traversal is a set of pure functions that thread the state.

Each `Debug.Assert` of the source is a `requires` on the primitive it guards
(`Push`, `Pop`, `DrawSymbolTriangle`). The traversal checks the same
conditions before calling those primitives. When one fails, it stops with a
`Failure` that names the violated assertion: `NestedTransform`,
`SymbolLevel` or `SymbolTransformMismatch`. The model treats every failed
assertion as fatal to the walk; what a failed `Debug.Assert` does at run
time depends on the host's trace listeners and is not modelled.

When a whole walk succeeds is stated independently of the walk itself. Every
push must go onto an empty stack. Every triangle pair must be drawn exactly
one level deep. Each pair after the first, in drawing order, must be drawn
under a transform AlmostEqual to the captured one. That is the transform
captured before, or else the first pair's transform. When a transform was
captured before, the first pair must pass this test too. Order is stated by
the contracts of the walk and by append lemmas: a geometry element draws its
objects through `DrawObjects`, and a plain element draws its geometry through
`DrawGeometry`; objects, members and edges are drawn in enumeration order;
and a group draws its members before its own geometry.

Modules:

- `Results`: results and options.
- `Geometry`: the host types and the geometry tree.
- `TransformStack`: push, pop and point transformation.
- `VertexPool`: the add-or-get pool.
- `IndexRecords`: index records, their printed form and its parser.
- `Collector`: the state, its invariant and the drawing primitives.
- `Traversal`: meshes, solids, instances, geometry and elements.
- `TransformText`: the SymbolTransform text.
- `Scenarios`: whole runs on small trees.

## Model

All source paths are `ExportSymbolInstanceGeo/TriangleCollector.cs`.

| member | source | states |
|---|---|---|
| TransformStack.Push | ExportSymbolInstanceGeo/TriangleCollector.cs:48-58 | Only an empty stack may be pushed on; afterwards the stack holds exactly the pushed transform |
| TransformStack.Pop | ExportSymbolInstanceGeo/TriangleCollector.cs:60-75 | Only a non-empty stack may be popped; exactly its last transform is removed, and popping the only one leaves the empty (null) stack |
| TransformStack.PushThenPop | ExportSymbolInstanceGeo/TriangleCollector.cs:48-75 | A push followed by a pop restores the empty stack |
| TransformStack.TransformPoint | ExportSymbolInstanceGeo/TriangleCollector.cs:77-89 | The identity on an empty stack; at depth one, OfPoint of the single transform |
| TransformStack.TransformPointComposes | ExportSymbolInstanceGeo/TriangleCollector.cs:77-89 | The last-to-first loop equals the nested composition T0(T1(…(p))) of an independent reference definition, at any depth |
| VertexPool.Add | ExportSymbolInstanceGeo/TriangleCollector.cs:93-96 | Add-or-get: the returned index holds the key; a known key leaves the pool unchanged; a new key is appended and gets the old pool size |
| VertexPool.AddKeepsDistinct | ExportSymbolInstanceGeo/TriangleCollector.cs:93-96 | Adding never creates a second index for a key |
| VertexPool.IndexOfUnique | ExportSymbolInstanceGeo/TriangleCollector.cs:93-96 | In a duplicate-free pool the index of a key is its only position |
| VertexPool.AddIdempotent | ExportSymbolInstanceGeo/TriangleCollector.cs:93-96 | Adding the same key again returns the same index and leaves the pool as the first add left it |
| VertexPool.AddAll | ExportSymbolInstanceGeo/TriangleCollector.cs:93-96 | Adding keys one after another only appends to the pool: every added key ends up in it, nothing else enters, and the pool stays duplicate-free |
| VertexPool.AddAllAppend | ExportSymbolInstanceGeo/TriangleCollector.cs:93-96 | Adding two key lists in turn is adding their concatenation |
| Collector.NewCollector | ExportSymbolInstanceGeo/TriangleCollector.cs:135-143 | A new collector is empty, has captured nothing, has a null stack, and satisfies the invariant |
| Collector.VertexIndexOf | ExportSymbolInstanceGeo/TriangleCollector.cs:93-96 | The index of the point's quantised key; only the pool changes; it grows by the key exactly when the key is new; no duplicates arise |
| Collector.VertexIndexOfKnown | ExportSymbolInstanceGeo/TriangleCollector.cs:93-96 | A point whose key is pooled at i gets index i and changes nothing |
| Collector.PooledTriangle | ExportSymbolInstanceGeo/TriangleCollector.cs:105-132 | The three corners' keys are added to the pool in the order p, q, r, and the triangle spans their entries |
| Collector.DrawLine | ExportSymbolInstanceGeo/TriangleCollector.cs:98-103 | One segment is appended, joining the pool entries of the transformed p and q; the pool grows by adding the key of p, then that of q; only the pool and the lines change; every stored index stays below the pool size |
| Collector.DrawInstanceTriangle | ExportSymbolInstanceGeo/TriangleCollector.cs:105-111 | One instance triangle is appended over the pool entries of the transformed p, q, r, in that order; the pool grows by adding those three keys in that order; only the pool and that list change |
| Collector.DrawSymbolTriangle | ExportSymbolInstanceGeo/TriangleCollector.cs:113-132 | Requires depth exactly one and, once a transform is captured, AlmostEqual with the active one; the first call captures the active transform and later calls keep it; one symbol triangle is appended over the raw p, q, r; the pool grows by adding the raw keys of p, q, r in that order |
| Collector.DrawLines | ExportSymbolInstanceGeo/TriangleCollector.cs:210-221 | n points give max(n-1, 0) new segments; segment i joins the transformed points i and i+1; the pool grows by adding the keys of both ends of each segment, segment by segment, and fewer than two points leave it unchanged; only the pool and the lines change |
| Collector.LinesDrawnCons | ExportSymbolInstanceGeo/TriangleCollector.cs:210-221 | The segment of the first pair, then the segments of the remaining points, are the segments of all points in order, and their pool additions compose the same way |
| Collector.DrawCurve | ExportSymbolInstanceGeo/TriangleCollector.cs:200-203 | A curve draws its tessellation as consecutive segments, growing the pool as DrawLines states |
| Collector.DrawPolyLine | ExportSymbolInstanceGeo/TriangleCollector.cs:205-208 | A polyline draws its coordinates as consecutive segments, growing the pool as DrawLines states |
| Collector.DrawEdge | ExportSymbolInstanceGeo/TriangleCollector.cs:261-264 | An edge draws its tessellation as consecutive segments, growing the pool as DrawLines states |
| Collector.InstanceTriangleIndices | ExportSymbolInstanceGeo/TriangleCollector.cs:569-577 | Reading the string back yields the indices of the instance triangles, three per triangle, in recording order |
| Collector.SymbolTriangleIndices | ExportSymbolInstanceGeo/TriangleCollector.cs:579-587 | Reading the string back yields the indices of the symbol triangles, three per triangle, in recording order |
| IndexRecords.NatToString | ExportSymbolInstanceGeo/TriangleCollector.cs:33-36 | A printed index is a non-empty decimal numeral without leading zeros |
| IndexRecords.NumeralRoundTrip | ExportSymbolInstanceGeo/TriangleCollector.cs:33-36 | Reading a printed index gives the index back |
| IndexRecords.JoinSpaced | ExportSymbolInstanceGeo/TriangleCollector.cs:573-575 | string.Join with a single space: the result begins with the first piece, so it is non-empty when that piece is |
| IndexRecords.SplitJoin | ExportSymbolInstanceGeo/TriangleCollector.cs:573-575 | Splitting a single-space join of space-free pieces at its spaces gives the pieces back |
| IndexRecords.PrintedNumeralsRoundTrip | ExportSymbolInstanceGeo/TriangleCollector.cs:33-36 | A non-empty list of printed indices joined by single spaces reads back as the indices, in order |
| IndexRecords.TriangleString | ExportSymbolInstanceGeo/TriangleCollector.cs:33-36 | "A B C" reads back as A, B, C in that order |
| IndexRecords.TrianglesAreJoinedNumerals | ExportSymbolInstanceGeo/TriangleCollector.cs:569-587 | Joining the printed triangles is joining the printed indices of all their corners, three per triangle |
| IndexRecords.IndexString | ExportSymbolInstanceGeo/TriangleCollector.cs:569-587 | The text is the canonical decimal numerals of the flattened indices (three per triangle, recording order) joined by single spaces, and it reads back as those indices; the empty list prints as "" |
| IndexRecords.IndexStringInjective | ExportSymbolInstanceGeo/TriangleCollector.cs:569-577 | Two triangle lists with the same index string are equal |
| Traversal.DrawMeshTriangle | ExportSymbolInstanceGeo/TriangleCollector.cs:238-245 | One loop iteration succeeds exactly when its assertions hold; otherwise it reports SymbolLevel at a depth other than one, and SymbolTransformMismatch at depth one; on success it records one instance and one symbol triangle for the corners, and the pool grows by the three transformed keys and then the three raw keys |
| Traversal.MeshTriangleDrawn | ExportSymbolInstanceGeo/TriangleCollector.cs:105-131 | An instance triangle followed by a symbol triangle is one mesh step: both lists grow by one, the pool grows by the transformed and then the raw keys, and the lines and the stack are unchanged |
| Traversal.MeshDrawnCons | ExportSymbolInstanceGeo/TriangleCollector.cs:235-247 | The first triangle's step, followed by the steps of the rest, is the outcome for the whole mesh, pool growth included |
| Traversal.DrawMesh | ExportSymbolInstanceGeo/TriangleCollector.cs:235-247 | Succeeds exactly when every iteration's assertions hold, and reports which assertion failed otherwise. On success both lists grow by the triangle count: triangle i spans its transformed corners in the instance list and its raw corners in the symbol list; the pool grows by six keys per triangle, three transformed then three raw, triangle by triangle; the lines and the stack are unchanged; an empty mesh changes nothing |
| Traversal.DrawMeshAppend | ExportSymbolInstanceGeo/TriangleCollector.cs:235-247 | Drawing two triangle lists one after the other is drawing their concatenation |
| Traversal.MeshAdmissibleRepeat | ExportSymbolInstanceGeo/TriangleCollector.cs:235-247 | The mesh loop's success condition is the pair condition over its triangles, all drawn under the current stack |
| Traversal.DrawMeshSuccess | ExportSymbolInstanceGeo/TriangleCollector.cs:235-247 | A mesh succeeds exactly when its pairs pass, and captures the first pair's transform |
| Traversal.DrawFace | ExportSymbolInstanceGeo/TriangleCollector.cs:266-269 | A face draws its triangulation as a mesh: it succeeds exactly when that mesh's assertions hold, and then records and pools exactly as DrawMesh states |
| Traversal.DrawFaces | ExportSymbolInstanceGeo/TriangleCollector.cs:251-254 | The faces drawn in turn are the same as one mesh of all their triangles |
| Traversal.DrawEdges | ExportSymbolInstanceGeo/TriangleCollector.cs:255-258 | The edges add the sum of their segment counts, and only the pool and the lines change |
| Traversal.DrawEdgesAppend | ExportSymbolInstanceGeo/TriangleCollector.cs:255-258 | Drawing two edge lists one after the other is drawing their concatenation, so edges are drawn in enumeration order |
| Traversal.OneEdge | ExportSymbolInstanceGeo/TriangleCollector.cs:255-258 | A single edge is drawn as its own polyline, with no segment to or from other edges |
| Traversal.DrawSolid | ExportSymbolInstanceGeo/TriangleCollector.cs:249-259 | Succeeds exactly when all face triangles pass as one mesh; on success the result is the edges drawn after that one mesh of all face triangles, and the counts add up |
| Traversal.DrawSolidSuccess | ExportSymbolInstanceGeo/TriangleCollector.cs:249-259 | A solid's pairs are all drawn under the current stack: it succeeds exactly when they pass, and captures like a mesh |
| Traversal.DrawGeometry | ExportSymbolInstanceGeo/TriangleCollector.cs:169-198 | A null geometry element changes nothing; any other is drawn as its objects, in enumeration order (DrawObjects); on success the invariant is kept, records are only appended, the stack is restored, and a newly captured transform is the active one |
| Traversal.DrawGeometrySuccess | ExportSymbolInstanceGeo/TriangleCollector.cs:169-198 | Succeeds exactly when every push of the subtree goes onto an empty stack and every triangle pair, in drawing order, is one level deep and AlmostEqual to the captured transform; then the first pair's transform is captured; a failure names a push only when some push is nested |
| Traversal.DrawObjects | ExportSymbolInstanceGeo/TriangleCollector.cs:175-197 | No objects change nothing; on success the counts of all objects add up and the stack is restored |
| Traversal.DrawObjectsAppend | ExportSymbolInstanceGeo/TriangleCollector.cs:175-197 | Drawing two object lists one after the other is drawing their concatenation, failures stopping the walk, so objects are drawn in enumeration order |
| Traversal.DrawObjectsSuccess | ExportSymbolInstanceGeo/TriangleCollector.cs:175-197 | An object list succeeds exactly when every object succeeds against what the objects before it captured |
| Traversal.DrawObject | ExportSymbolInstanceGeo/TriangleCollector.cs:177-196 | The type dispatch: curves and polylines draw their points as lines and succeed; meshes, solids and instances go to their drawers; an unrecognised object leaves the state unchanged |
| Traversal.DrawObjectSuccess | ExportSymbolInstanceGeo/TriangleCollector.cs:177-196 | Curves, polylines and unrecognised objects always succeed; meshes and solids succeed when their pairs pass; instances as DrawInstanceSuccess states |
| Traversal.DrawInstance | ExportSymbolInstanceGeo/TriangleCollector.cs:223-233 | A null symbol geometry changes nothing; a non-null one at depth one fails the push assertion; on success the stack depth is the same afterwards and a newly captured symbol transform is the instance transform |
| Traversal.DrawInstanceUnder | ExportSymbolInstanceGeo/TriangleCollector.cs:223-233 | At an empty stack, the symbol geometry is drawn under the instance transform alone, a failure passes through, and the transform is popped afterwards |
| Traversal.DrawInstanceSuccess | ExportSymbolInstanceGeo/TriangleCollector.cs:223-233 | Succeeds exactly when the symbol geometry is null, or the stack is empty and the symbol geometry drawn under the instance transform passes |
| Traversal.DrawElement | ExportSymbolInstanceGeo/TriangleCollector.cs:148-164 | A plain element is drawn as its geometry (a group, by GroupMembersFirst, as its members followed by a plain element of its own geometry); on success the invariant holds, the stack is restored and the counts of the members and of the own geometry add up |
| Traversal.GroupMembersFirst | ExportSymbolInstanceGeo/TriangleCollector.cs:152-163 | A group draws exactly like its member list followed by a plain element with the group's own geometry, so every member's records precede the group's own |
| Traversal.DrawElementSuccess | ExportSymbolInstanceGeo/TriangleCollector.cs:148-164 | An element succeeds exactly when every push is one level deep and every triangle pair of its members and then of its own geometry passes |
| Traversal.DrawElements | ExportSymbolInstanceGeo/TriangleCollector.cs:155-158 | On success the counts of all members add up and the stack is restored |
| Traversal.DrawElementsAppend | ExportSymbolInstanceGeo/TriangleCollector.cs:155-158 | Drawing two member lists one after the other is drawing their concatenation, so members are drawn in id order |
| Traversal.DrawElementsSuccess | ExportSymbolInstanceGeo/TriangleCollector.cs:155-158 | A member list succeeds exactly when every member succeeds against what the members before it captured |
| Traversal.TraversedTrans | ExportSymbolInstanceGeo/TriangleCollector.cs:175-197 | Two successful traversals in sequence are one traversal with the summed counts, and the first capture of the symbol transform persists |
| Traversal.PairsAdmissibleAppend | ExportSymbolInstanceGeo/TriangleCollector.cs:113-131 | The pairs of two subtrees drawn in turn pass exactly when the first pass and the second pass against what the first captured |
| Traversal.SucceedsWhenSeq | ExportSymbolInstanceGeo/TriangleCollector.cs:175-197 | Two traversals in sequence succeed exactly when both could, and a failure of either names an assertion the whole breaks |
| TransformText.SymbolTransformAsWritten | ExportSymbolInstanceGeo/TriangleCollector.cs:589-600 | The getter as written yields text exactly when a transform has been captured |
| TransformText.SymbolTransformText | ExportSymbolInstanceGeo/TriangleCollector.cs:589-600 | The corrected getter yields text exactly when a transform has been captured |
| TransformText.SymbolTransformTextFields | ExportSymbolInstanceGeo/TriangleCollector.cs:589-600 | The corrected text splits into BasisX, BasisY, BasisZ and the quantised origin, in that order |
| TransformText.AsWrittenRepeatsBasisX | ExportSymbolInstanceGeo/TriangleCollector.cs:595-597 | As written, the third field of the text is BasisX again |
| TransformText.AsWrittenLosesBasisZ | ExportSymbolInstanceGeo/TriangleCollector.cs:597 | As written, transforms that differ only in BasisZ print the same text |
| TransformText.TextKeepsBasisZ | ExportSymbolInstanceGeo/TriangleCollector.cs:597 | Corrected, transforms whose BasisZ prints differently print different texts |
| Scenarios.FirstTriangle | ExportSymbolInstanceGeo/TriangleCollector.cs:113-131 | The first triangle under an identity-like transform pools its three distinct keys as 0, 1, 2, records (0, 1, 2) in both lists and captures the active transform |
| Scenarios.SingleTriangleMesh | ExportSymbolInstanceGeo/TriangleCollector.cs:235-247 | A one-triangle mesh is one loop iteration |
| Scenarios.OneObjectList | ExportSymbolInstanceGeo/TriangleCollector.cs:175-197 | A list of one object draws just that object |
| Scenarios.MeshInsideInstance | ExportSymbolInstanceGeo/TriangleCollector.cs:223-233 | An instance holding one mesh draws the mesh under its transform and pops it afterwards |
| Scenarios.SingleTriangleInstance | ExportSymbolInstanceGeo/TriangleCollector.cs:569-587 | From a new collector, one instance with one triangle gives the pool [p, q, r], "0 1 2" in both strings, the instance transform captured, and the stack empty again |
| Scenarios.MeshOutsideInstance | ExportSymbolInstanceGeo/TriangleCollector.cs:113-116 | A mesh drawn outside any instance fails the single-level assertion |
| Scenarios.NestedInstance | ExportSymbolInstanceGeo/TriangleCollector.cs:48-51 | An instance inside an instance fails the one-level push assertion |
| Scenarios.MismatchDetected | ExportSymbolInstanceGeo/TriangleCollector.cs:120-126 | Two instances whose transforms are not AlmostEqual fail the symbol transform assertion at the second |
| Scenarios.TwoCurvesInOrder | ExportSymbolInstanceGeo/TriangleCollector.cs:148-203 | A plain element with two curves draws the first curve's segments, and pools its points, before the second's |
| Scenarios.EmptyGroup | ExportSymbolInstanceGeo/TriangleCollector.cs:148-164 | A group without members draws like a plain element with the same geometry |
| Scenarios.ZeroOneTwo | ExportSymbolInstanceGeo/TriangleCollector.cs:33-36 | The triangle (0, 1, 2) prints as "0 1 2" |

## Left out

- The Revit API is not modelled. That covers `Document.GetElement`, `get_Geometry(Options)`, `Tessellate`, `GetCoordinates`, `Triangulate`, `Faces`, `Edges` and `GetMemberIds`. Their results are fields of the geometry datatypes.
- The floating-point arithmetic of `Transform.OfPoint`, `Transform.AlmostEqual` and the IntPoint3d rounding is not modelled. These are uninterpreted `Kernel` functions.
- IntVertexLookup is not part of this model beyond its add-or-get contract. The pool is the ordered sequence of quantised keys.
- `VertexCoordinates` (lines 561-567) is left out. It prints the pool through `_vertices.Coordinates`, which is not part of this model.
- `Util.PointString` and `IntPoint3d.ToString(true)` are uninterpreted `Kernel` functions. Statements about the split fields of the SymbolTransform text assume that they print no spaces.
- The VB.NET block under `#if ElementViewer` (lines 271-559) is never compiled and is left out.
- A failed `Debug.Assert` is fatal in the model. Whether it stops the export at run time depends on the trace listeners (a dialog may let it continue), and a release build skips the assertion and goes on: it would push a second transform, read `_transformations[0]` at any depth, or keep an un-AlmostEqual transform. Those release-build paths are not modelled.
- A mesh drawn outside any instance dereferences the null stack in `DrawSymbolTriangle` (line 115) and throws. The model reports it as the `SymbolLevel` failure.
- `SymbolTransform` dereferences a null `_symbol_transform` when nothing was captured. The model returns `None` there.
- Indices are unbounded naturals. The source's 32-bit `int` could only overflow beyond two billion pooled vertices.
- Elements whose id does not resolve (a null from `GetElement`) are not modelled. A group's members are the elements themselves.
- Traversal.DrawGeometry: like DrawObjects, DrawElement and DrawElements, its contract states the invariant, the stack, the counts and the capture rule for a whole subtree, not a closed form for each record. Each record is reached by unfolding: DrawGeometry is DrawObjects over the objects, DrawElement is DrawGeometry (after the members, for a group), and the order lemmas (DrawObjectsAppend, DrawElementsAppend, DrawEdgesAppend), the dispatch of DrawObject and the contracts of DrawLines and DrawMesh give the records of each object.
- Traversal.DrawGeometrySuccess: it states when a subtree succeeds and which kind of assertion a failure can name, not which object the walk stopped at.
- Null points inside a tessellation (the `null != p` test of `DrawLines` only matters for the first point) are not modelled.

## Findings

| source | as written | input that shows it | evidently intended | confidence | as-written member | corrected member |
|---|---|---|---|---|---|---|
| ExportSymbolInstanceGeo/TriangleCollector.cs:597 | The third field of `SymbolTransform` prints `t.BasisX` again | Two captured transforms equal in BasisX, BasisY and Origin but different in BasisZ print the same text | The third field prints `t.BasisZ`, so the text carries all three basis vectors | not executed; medium (the other fields are BasisX, BasisY and Origin) | TransformText.AsWrittenLosesBasisZ | TransformText.TextKeepsBasisZ |

/** The host CAD model as the collector sees it: points, transforms and the
    geometry tree, with the host's point arithmetic left uninterpreted. */
module Geometry {

  /** A model-space point (XYZ). */
  type Point

  /** An affine transform of the host model. */
  type Transform

  /** A point quantised to integer coordinates (IntPoint3d); two points are
      welded into one vertex exactly when their keys are equal. */
  type Key(==)

  /** The operations the collector borrows from the host: `ofPoint(t, p)`
      is Transform.OfPoint, `almostEqual(s, t)` is Transform.AlmostEqual and
      `quantize(p)` is the IntPoint3d constructor; `basisX`, `basisY`,
      `basisZ` and `origin` are the Transform properties, `vectorText(v)` is
      Util.PointString(v, true) and `keyText(q)` is IntPoint3d.ToString(true).
      They are kept abstract: nothing is assumed about them. */
  datatype Kernel = Kernel(
    ofPoint: (Transform, Point) -> Point,
    almostEqual: (Transform, Transform) -> bool,
    quantize: Point -> Key,
    basisX: Transform -> Point,
    basisY: Transform -> Point,
    basisZ: Transform -> Point,
    origin: Transform -> Point,
    vectorText: Point -> string,
    keyText: Key -> string)

  /** One triangle of a mesh or of a triangulated face, corners in winding order. */
  datatype MeshTriangle = MeshTriangle(p: Point, q: Point, r: Point)

  /** A solid face, already triangulated by the host. */
  datatype Face = Face(triangles: seq<MeshTriangle>)

  /** A solid edge, already tessellated by the host. */
  datatype Edge = Edge(points: seq<Point>)

  /** A geometry element: null, or the sequence of objects it enumerates. */
  datatype GeometryElement = NullGeometry | Geometry(objects: seq<GeometryObject>)

  /** The geometry objects the collector recognises, plus everything else.
      Curve points are the host's tessellation, PolyLine points its
      coordinates. */
  datatype GeometryObject =
    | Curve(points: seq<Point>)
    | PolyLine(points: seq<Point>)
    | Instance(transform: Transform, symbolGeometry: GeometryElement)
    | Mesh(triangles: seq<MeshTriangle>)
    | Solid(faces: seq<Face>, edges: seq<Edge>)
    | Other

  /** A model element: a group, whose members are the elements its member ids
      resolve to, or any other element; both carry their own geometry. */
  datatype Element =
    | Group(members: seq<Element>, geometry: GeometryElement)
    | Plain(geometry: GeometryElement)
}

/** The viewer's mesh-inflation state and its two entry points,
    `initMeshInflation` and `inflateMesh` (js/viewer.js:135-252), written as the
    loops they are over buffers updated in place. */
module MeshInflation {
  import opened Vectors
  import opened Topology
  import opened Forces
  import opened Integrator
  import opened Simulation

  datatype Option<T> = None | Some(value: T)

  /** What `inflateMesh` does: a full tick, or nothing because no edge map has been built. */
  datatype StepResult = Stepped | NotReady

  /** A buffer of `n` zero vectors, filled one `new Vector3()` at a time. */
  method ZeroBuffer(n: nat) returns (buf: array<Vec3>)
    ensures fresh(buf) && buf[..] == Zeros(n)
  {
    buf := new Vec3[n];
    var i := 0;
    while i < n
      invariant 0 <= i <= n
      invariant forall j :: 0 <= j < i ==> buf[j] == Zero
    {
      buf[i] := Zero;
      i := i + 1;
    }
  }

  /** The inner loop of the face loop: registers the three sides of one face,
      skipping those already present. */
  method RegisterSides(edges: map<EdgeKey, Edge>, face: Face, vertices: array<Vec3>, num: Numerics)
    returns (result: map<EdgeKey, Edge>)
    requires face.a < vertices.Length && face.b < vertices.Length && face.c < vertices.Length
    ensures result == RegisterFace(edges, face, vertices[..], num)
  {
    var vertexIds := Sort3(face.a, face.b, face.c);
    ghost var keys := FaceKeys(face);
    assert keys == [KeyAt(vertexIds, 1), KeyAt(vertexIds, 2), KeyAt(vertexIds, 3)];
    FaceKeysInRange(face, vertices.Length);
    result := edges;
    var j := 1;
    while j <= 3
      invariant 1 <= j <= 4
      invariant result == RegisterAll(edges, keys[..j - 1], vertices[..], num)
    {
      var start, end;
      if j < 3 {
        start := vertexIds[j - 1];
        end := vertexIds[j % 3];
      } else {
        start := vertexIds[j % 3];
        end := vertexIds[j - 1];
      }
      var key := (start, end);
      assert key == keys[j - 1] by {
        assert key == KeyAt(vertexIds, j);
      }
      RegisterAllSnoc(edges, keys, j, vertices[..], num);
      if key !in result {
        var v1 := vertices[start];
        var v2 := vertices[end];
        var dist := num.length(Sub(v2, v1));
        assert Edge(start, end, dist) == RestEdge(vertices[..], key, num);
        result := result[key := Edge(start, end, dist)];
      }
      j := j + 1;
    }
    assert keys[..3] == keys;
  }

  /** The face loop of `initMeshInflation`: the edge map of all faces. */
  method BuildPairs(faces: array<Face>, vertices: array<Vec3>, num: Numerics) returns (edges: map<EdgeKey, Edge>)
    requires FacesInRange(faces[..], vertices.Length)
    ensures edges == EdgeMap(faces[..], vertices[..], num)
  {
    edges := map[];
    var i := 0;
    while i < faces.Length
      invariant 0 <= i <= faces.Length
      invariant FacesInRange(faces[..i], vertices.Length)
      invariant edges == EdgeMap(faces[..i], vertices[..], num)
    {
      EdgeMapSnoc(faces[..], i, vertices[..], num);
      edges := RegisterSides(edges, faces[i], vertices, num);
      i := i + 1;
    }
    assert faces[..faces.Length] == faces[..];
  }

  /** The edge loop of `inflateMesh`: each stored edge adds `s·u` at its start
      and `−s·u` at its end, the keys visited in no particular order. */
  method AddSpringForces(forces: array<Vec3>, edges: map<EdgeKey, Edge>, vertices: array<Vec3>,
                         stiffness: real, num: Numerics)
    requires forces != vertices && forces.Length == vertices.Length
    requires EdgesInRange(edges, vertices.Length)
    modifies forces
    ensures forces[..] == SpringForces(edges, edges.Keys, old(forces[..]), vertices[..], stiffness, num)
  {
    ghost var start := forces[..];
    var todo := edges.Keys;
    while todo != {}
      invariant todo <= edges.Keys
      invariant forces[..] == SpringForces(edges, edges.Keys - todo, start, vertices[..], stiffness, num)
      decreases todo
    {
      var key :| key in todo;
      ghost var done := edges.Keys - todo;
      ghost var before := forces[..];
      var pair := edges[key];
      var v1 := vertices[pair.start];
      var v2 := vertices[pair.end];
      var v3 := Sub(v2, v1);
      var dist := num.length(v3);
      var s := stiffness * (dist - pair.dist);
      v3 := num.normalize(v3);
      v3 := Scale(s, v3);
      ghost var f := v3;
      assert f == SpringForce(pair, vertices[..], stiffness, num);
      forces[pair.start] := Add(forces[pair.start], v3);
      v3 := Neg(v3);
      forces[pair.end] := Add(forces[pair.end], v3);
      assert forces[..] == AddSpring(before, pair, f);
      SpringForcesPick(edges, done + {key}, key, start, vertices[..], stiffness, num);
      assert done + {key} - {key} == done;
      todo := todo - {key};
      assert edges.Keys - todo == done + {key};
    }
    assert edges.Keys - {} == edges.Keys;
  }

  /** The face loop of `inflateMesh`: `amplitude·normal` added at each corner of each face. */
  method AddPressureForces(forces: array<Vec3>, faces: array<Face>, amplitude: real)
    requires FacesInRange(faces[..], forces.Length)
    modifies forces
    ensures forces[..] == PressureForces(old(forces[..]), faces[..], amplitude)
  {
    ghost var start := forces[..];
    var i := 0;
    while i < faces.Length
      invariant 0 <= i <= faces.Length
      invariant forces[..] == PressureForces(start, faces[..i], amplitude)
    {
      var face := faces[i];
      var n := Scale(amplitude, face.normal);
      forces[face.a] := Add(forces[face.a], n);
      forces[face.b] := Add(forces[face.b], n);
      forces[face.c] := Add(forces[face.c], n);
      assert faces[..i + 1][..i] == faces[..i];
      i := i + 1;
    }
    assert faces[..faces.Length] == faces[..];
  }

  /** `velocities[i] = (velocities[i] + forces[i])·damping` for every vertex. */
  method UpdateVelocities(velocities: array<Vec3>, forces: array<Vec3>, damping: real)
    requires velocities != forces && velocities.Length == forces.Length
    modifies velocities
    ensures velocities[..] == Damp(old(velocities[..]), forces[..], damping)
  {
    var i := 0;
    while i < velocities.Length
      invariant 0 <= i <= velocities.Length
      invariant forall j :: 0 <= j < i ==> velocities[j] == Scale(damping, Add(old(velocities[j]), forces[j]))
      invariant forall j :: i <= j < velocities.Length ==> velocities[j] == old(velocities[j])
    {
      velocities[i] := Add(velocities[i], forces[i]);
      velocities[i] := Scale(damping, velocities[i]);
      i := i + 1;
    }
  }

  /** `vertices[i] += velocities[i]` for every vertex. */
  method UpdatePositions(vertices: array<Vec3>, velocities: array<Vec3>)
    requires vertices != velocities && vertices.Length == velocities.Length
    modifies vertices
    ensures vertices[..] == Advance(old(vertices[..]), velocities[..])
  {
    var i := 0;
    while i < vertices.Length
      invariant 0 <= i <= vertices.Length
      invariant forall j :: 0 <= j < i ==> vertices[j] == Add(old(vertices[j]), velocities[j])
      invariant forall j :: i <= j < vertices.Length ==> vertices[j] == old(vertices[j])
    {
      vertices[i] := Add(vertices[i], velocities[i]);
      i := i + 1;
    }
  }

  /** The body of `inflateMesh` once the edge map exists: forces from zero,
      springs, then pressure, then velocities, then positions, then face normals. */
  method Inflate(g: Geometry, velocities: array<Vec3>, pairs: map<EdgeKey, Edge>,
                 stiffness: real, amplitude: real, damping: real, num: Numerics)
    requires WellFormed(pairs, SimState(g.vertices[..], g.faces[..], velocities[..]))
    requires velocities != g.vertices
    modifies g.vertices, g.faces, velocities
    ensures SimState(g.vertices[..], g.faces[..], velocities[..])
         == Tick(pairs, old(SimState(g.vertices[..], g.faces[..], velocities[..])), stiffness, amplitude, damping, num)
  {
    ghost var st := SimState(g.vertices[..], g.faces[..], velocities[..]);
    var forces := ZeroBuffer(g.vertices.Length);
    AddSpringForces(forces, pairs, g.vertices, stiffness, num);
    AddPressureForces(forces, g.faces, amplitude);
    assert forces[..] == NetForces(pairs, st, stiffness, amplitude, num);
    UpdateVelocities(velocities, forces, damping);
    assert velocities[..] == Damp(st.velocities, forces[..], damping);
    UpdatePositions(g.vertices, velocities);
    assert g.vertices[..] == Advance(st.vertices, velocities[..]);
    assert g.faces[..] == st.faces;
    g.ComputeFaceNormals(num);
  }

  /** The loaded geometry: vertex positions and faces, both updated in place. */
  class Geometry {
    var vertices: array<Vec3>
    var faces: array<Face>

    /** A geometry holding the given positions and faces. */
    constructor (verts: seq<Vec3>, fs: seq<Face>)
      ensures fresh(vertices) && fresh(faces)
      ensures vertices[..] == verts && faces[..] == fs
    {
      vertices := new Vec3[|verts|](i requires 0 <= i < |verts| => verts[i]);
      faces := new Face[|fs|](i requires 0 <= i < |fs| => fs[i]);
    }

    /** `computeFaceNormals()`: every face's normal becomes the library's normal
        of its corners at the current positions; the corners stay. */
    method ComputeFaceNormals(num: Numerics)
      requires FacesInRange(faces[..], vertices.Length)
      modifies faces
      ensures faces[..] == RecomputeNormals(old(faces[..]), vertices[..], num)
    {
      var i := 0;
      while i < faces.Length
        invariant 0 <= i <= faces.Length
        invariant forall j :: 0 <= j < i ==> faces[j] == RecomputeNormals(old(faces[..]), vertices[..], num)[j]
        invariant forall j :: i <= j < faces.Length ==> faces[j] == old(faces[j])
      {
        var face := faces[i];
        faces[i] := face.(normal := num.faceNormal(vertices[face.a], vertices[face.b], vertices[face.c]));
        i := i + 1;
      }
    }
  }

  /** The inflation state the viewer keeps beside the geometry. `pairs` and
      `geometry` are set together by Init; before that there is no edge map. */
  class Viewer {
    var pairs: Option<map<EdgeKey, Edge>>
    var velocities: array<Vec3>
    var geometry: Geometry?

    /** The edge map, velocity buffer and geometry fit together. */
    ghost predicate Valid()
      reads this, geometry, velocities
      reads if geometry == null then {} else {geometry.vertices as object, geometry.faces}
    {
      && (pairs.Some? <==> geometry != null)
      && (geometry != null ==>
            && velocities.Length == geometry.vertices.Length
            && velocities != geometry.vertices
            && FacesInRange(geometry.faces[..], geometry.vertices.Length)
            && EdgesInRange(pairs.value, geometry.vertices.Length))
    }

    /** The state one tick reads and writes. */
    ghost function State(): SimState
      reads this, geometry, velocities
      reads if geometry == null then {} else {geometry.vertices as object, geometry.faces}
      requires geometry != null
    {
      SimState(geometry.vertices[..], geometry.faces[..], velocities[..])
    }

    /** A viewer with no mesh loaded yet. */
    constructor ()
      ensures Valid() && pairs == None && geometry == null
    {
      pairs := None;
      velocities := new Vec3[0];
      geometry := null;
    }

    /** `initMeshInflation(geometry)`: registers the sides of every face, first
        registration first, and gives every vertex a zero velocity. */
    method Init(g: Geometry, num: Numerics)
      requires FacesInRange(g.faces[..], g.vertices.Length)
      modifies this
      ensures Valid() && geometry == g && fresh(velocities)
      ensures pairs == Some(EdgeMap(g.faces[..], g.vertices[..], num))
      ensures velocities[..] == Zeros(g.vertices.Length)
    {
      var edges := BuildPairs(g.faces, g.vertices, num);
      var vels := ZeroBuffer(g.vertices.Length);
      EdgeMapAtRest(g.faces[..], g.vertices[..], num);
      pairs := Some(edges);
      velocities := vels;
      geometry := g;
    }

    /** `inflateMesh(stiffness, amplitude, damping)`: without an edge map nothing
        changes; otherwise one tick: springs, then pressure, then velocities,
        then positions, then face normals. The edge map is never written. */
    method Step(stiffness: real, amplitude: real, damping: real, num: Numerics) returns (r: StepResult)
      requires Valid()
      modifies if geometry == null then {} else {geometry.vertices as object, geometry.faces, velocities}
      ensures Valid() && pairs == old(pairs) && geometry == old(geometry)
      ensures r == NotReady <==> old(pairs).None?
      ensures r == Stepped ==> State() == Tick(pairs.value, old(State()), stiffness, amplitude, damping, num)
    {
      if pairs.None? {
        return NotReady;
      }
      Inflate(geometry, velocities, pairs.value, stiffness, amplitude, damping, num);
      return Stepped;
    }
  }
}

/** Force assembly of `inflateMesh` (js/viewer.js:197-236): a spring term per
    stored edge, then a pressure term per face incidence, accumulated into a
    buffer that starts at zero. */
module Forces {
  import opened Vectors
  import opened Topology

  /** Every stored edge refers to vertices that exist. */
  predicate EdgesInRange(pairs: map<EdgeKey, Edge>, n: nat) {
    forall k :: k in pairs ==> pairs[k].start < n && pairs[k].end < n
  }

  /** Hooke's law along the edge: `s·u`, with `s = stiffness·(dist − rest)` and
      `u` the normalized direction from `start` to `end`. */
  function SpringForce(e: Edge, verts: seq<Vec3>, stiffness: real, num: Numerics): (r: Vec3)
    requires e.start < |verts| && e.end < |verts|
    ensures stiffness == 0.0 || num.length(Sub(verts[e.end], verts[e.start])) == e.dist ==> r == Zero
  {
    var d := Sub(verts[e.end], verts[e.start]);
    var s := stiffness * (num.length(d) - e.dist);
    Scale(s, num.normalize(d))
  }

  /** One pass of the edge loop with spring force `f`: `f` added at `start`,
      then `−f` at `end`. */
  function AddSpring(forces: seq<Vec3>, e: Edge, f: Vec3): (r: seq<Vec3>)
    requires e.start < |forces| && e.end < |forces|
    ensures |r| == |forces|
    ensures forall i :: 0 <= i < |forces| && i != e.start && i != e.end ==> r[i] == forces[i]
  {
    var once := forces[e.start := Add(forces[e.start], f)];
    once[e.end := Add(once[e.end], Neg(f))]
  }

  /** An arbitrary but fixed element of a non-empty set. */
  ghost function Pick(keys: set<EdgeKey>): EdgeKey
    requires keys != {}
  {
    var k :| k in keys; k
  }

  /** The force buffer after the edge loop has visited the edges of `keys`,
      starting from `forces`. The loop visits the keys in an order of its own;
      SpringForcesPick shows the order does not matter. */
  ghost function SpringForces(pairs: map<EdgeKey, Edge>, keys: set<EdgeKey>, forces: seq<Vec3>,
                              verts: seq<Vec3>, stiffness: real, num: Numerics): (r: seq<Vec3>)
    requires keys <= pairs.Keys && EdgesInRange(pairs, |verts|) && |forces| == |verts|
    ensures |r| == |forces|
    decreases keys
  {
    if keys == {} then forces
    else
      var k := Pick(keys);
      AddSpring(SpringForces(pairs, keys - {k}, forces, verts, stiffness, num), pairs[k], SpringForce(pairs[k], verts, stiffness, num))
  }

  /** Adding one edge changes the entries of its two ends, and no other entry. */
  lemma AddSpringAt(forces: seq<Vec3>, e: Edge, f: Vec3, i: nat)
    requires e.start < |forces| && e.end < |forces| && i < |forces|
    ensures AddSpring(forces, e, f)[i]
         == Add(forces[i], Add(if i == e.start then f else Zero, if i == e.end then Neg(f) else Zero))
  {
  }

  /** Two edges can be added in either order. */
  lemma AddSpringCommute(forces: seq<Vec3>, e1: Edge, f1: Vec3, e2: Edge, f2: Vec3)
    requires e1.start < |forces| && e1.end < |forces| && e2.start < |forces| && e2.end < |forces|
    ensures AddSpring(AddSpring(forces, e1, f1), e2, f2) == AddSpring(AddSpring(forces, e2, f2), e1, f1)
  {
    var one := AddSpring(AddSpring(forces, e1, f1), e2, f2);
    var two := AddSpring(AddSpring(forces, e2, f2), e1, f1);
    forall i | 0 <= i < |forces| ensures one[i] == two[i] {
      AddSpringAt(forces, e1, f1, i);
      AddSpringAt(forces, e2, f2, i);
      AddSpringAt(AddSpring(forces, e1, f1), e2, f2, i);
      AddSpringAt(AddSpring(forces, e2, f2), e1, f1, i);
    }
  }

  /** Whichever edge is visited last, the result is the same: the edge loop's
      outcome does not depend on the order in which it visits the keys. */
  lemma {:induction false} SpringForcesPick(pairs: map<EdgeKey, Edge>, keys: set<EdgeKey>, k: EdgeKey, forces: seq<Vec3>,
                                            verts: seq<Vec3>, stiffness: real, num: Numerics)
    requires keys <= pairs.Keys && EdgesInRange(pairs, |verts|) && |forces| == |verts|
    requires k in keys
    ensures SpringForces(pairs, keys, forces, verts, stiffness, num)
         == AddSpring(SpringForces(pairs, keys - {k}, forces, verts, stiffness, num), pairs[k], SpringForce(pairs[k], verts, stiffness, num))
    decreases keys
  {
    var p := Pick(keys);
    if p != k {
      var rest := keys - {k, p};
      assert keys - {p} - {k} == rest && keys - {k} - {p} == rest;
      SpringForcesPick(pairs, keys - {p}, k, forces, verts, stiffness, num);
      SpringForcesPick(pairs, keys - {k}, p, forces, verts, stiffness, num);
      AddSpringCommute(SpringForces(pairs, rest, forces, verts, stiffness, num),
                       pairs[k], SpringForce(pairs[k], verts, stiffness, num),
                       pairs[p], SpringForce(pairs[p], verts, stiffness, num));
    }
  }

  /** The spring contributions cancel pairwise: the edge loop does not change
      the sum of the force buffer. */
  lemma {:induction false} SpringForcesTotal(pairs: map<EdgeKey, Edge>, keys: set<EdgeKey>, forces: seq<Vec3>,
                                             verts: seq<Vec3>, stiffness: real, num: Numerics)
    requires keys <= pairs.Keys && EdgesInRange(pairs, |verts|) && |forces| == |verts|
    ensures Total(SpringForces(pairs, keys, forces, verts, stiffness, num)) == Total(forces)
    decreases keys
  {
    if keys != {} {
      var k := Pick(keys);
      var e := pairs[k];
      var before := SpringForces(pairs, keys - {k}, forces, verts, stiffness, num);
      SpringForcesTotal(pairs, keys - {k}, forces, verts, stiffness, num);
      var f := SpringForce(e, verts, stiffness, num);
      var once := before[e.start := Add(before[e.start], f)];
      TotalUpdate(before, e.start, f);
      TotalUpdate(once, e.end, Neg(f));
    }
  }

  /** Every edge is at its rest length in the positions `verts`. */
  ghost predicate AtRest(pairs: map<EdgeKey, Edge>, verts: seq<Vec3>, num: Numerics)
    requires EdgesInRange(pairs, |verts|)
  {
    forall k :: k in pairs ==> num.length(Sub(verts[pairs[k].end], verts[pairs[k].start])) == pairs[k].dist
  }

  /** With no stiffness, or with every edge at its rest length, the edge loop adds nothing. */
  lemma {:induction false} SpringForcesVanish(pairs: map<EdgeKey, Edge>, keys: set<EdgeKey>, forces: seq<Vec3>,
                                              verts: seq<Vec3>, stiffness: real, num: Numerics)
    requires keys <= pairs.Keys && EdgesInRange(pairs, |verts|) && |forces| == |verts|
    requires stiffness == 0.0 || AtRest(pairs, verts, num)
    ensures SpringForces(pairs, keys, forces, verts, stiffness, num) == forces
    decreases keys
  {
    if keys != {} {
      var k := Pick(keys);
      var e := pairs[k];
      SpringForcesVanish(pairs, keys - {k}, forces, verts, stiffness, num);
      var d := Sub(verts[e.end], verts[e.start]);
      var s := stiffness * (num.length(d) - e.dist);
      assert s == 0.0 by {
        if stiffness != 0.0 {
          assert num.length(d) == e.dist;
        }
      }
      var f := SpringForce(e, verts, stiffness, num);
      assert f == Scale(s, num.normalize(d));
      assert f == Zero;
      forall i | 0 <= i < |forces| ensures AddSpring(forces, e, f)[i] == forces[i] {
        AddSpringAt(forces, e, f, i);
      }
      assert AddSpring(forces, e, f) == forces;
    }
  }

  /** One pass of the face loop: `amplitude·normal` added at `a`, `b` and `c` in turn. */
  function AddPressure(forces: seq<Vec3>, f: Face, amplitude: real): (r: seq<Vec3>)
    requires f.a < |forces| && f.b < |forces| && f.c < |forces|
    ensures |r| == |forces|
    ensures forall i :: 0 <= i < |forces| && i != f.a && i != f.b && i != f.c ==> r[i] == forces[i]
  {
    var n := Scale(amplitude, f.normal);
    var withA := forces[f.a := Add(forces[f.a], n)];
    var withB := withA[f.b := Add(withA[f.b], n)];
    withB[f.c := Add(withB[f.c], n)]
  }

  /** The force buffer after the face loop has visited `faces`, in order, starting from `forces`. */
  function PressureForces(forces: seq<Vec3>, faces: seq<Face>, amplitude: real): (r: seq<Vec3>)
    requires FacesInRange(faces, |forces|)
    ensures |r| == |forces|
  {
    if |faces| == 0 then forces
    else AddPressure(PressureForces(forces, faces[..|faces| - 1], amplitude), faces[|faces| - 1], amplitude)
  }

  /** The face's normal once for each of its corners that is vertex `v`. */
  function CornerNormals(f: Face, v: nat): Vec3 {
    Add(Add(if f.a == v then f.normal else Zero, if f.b == v then f.normal else Zero),
        if f.c == v then f.normal else Zero)
  }

  /** The normals of the faces around `v`, each counted once per incidence. */
  function IncidentNormals(faces: seq<Face>, v: nat): Vec3 {
    if |faces| == 0 then Zero
    else Add(IncidentNormals(faces[..|faces| - 1], v), CornerNormals(faces[|faces| - 1], v))
  }

  /** One face adds `amplitude·normal` to `v` once per corner that is `v`. */
  lemma AddPressureAt(forces: seq<Vec3>, f: Face, amplitude: real, v: nat)
    requires f.a < |forces| && f.b < |forces| && f.c < |forces| && v < |forces|
    ensures AddPressure(forces, f, amplitude)[v] == Add(forces[v], Scale(amplitude, CornerNormals(f, v)))
  {
    var na := if f.a == v then f.normal else Zero;
    var nb := if f.b == v then f.normal else Zero;
    var nc := if f.c == v then f.normal else Zero;
    ScaleAdd(amplitude, Add(na, nb), nc);
    ScaleAdd(amplitude, na, nb);
  }

  /** Vertex `v` receives `amplitude·normal(f)` once per incidence on each face
      `f`, with no weighting by area. */
  lemma {:induction false} PressureForcesAt(forces: seq<Vec3>, faces: seq<Face>, amplitude: real, v: nat)
    requires FacesInRange(faces, |forces|) && v < |forces|
    ensures PressureForces(forces, faces, amplitude)[v] == Add(forces[v], Scale(amplitude, IncidentNormals(faces, v)))
  {
    if |faces| > 0 {
      var init, f := faces[..|faces| - 1], faces[|faces| - 1];
      assert FacesInRange(init, |forces|);
      PressureForcesAt(forces, init, amplitude, v);
      AddPressureAt(PressureForces(forces, init, amplitude), f, amplitude, v);
      ScaleAdd(amplitude, IncidentNormals(init, v), CornerNormals(f, v));
    }
  }

  /** The sum of the normals of all faces. */
  function NormalSum(faces: seq<Face>): Vec3 {
    if |faces| == 0 then Zero else Add(NormalSum(faces[..|faces| - 1]), faces[|faces| - 1].normal)
  }

  /** One face adds its pressure to the buffer's sum exactly three times. */
  lemma AddPressureTotal(forces: seq<Vec3>, f: Face, amplitude: real)
    requires f.a < |forces| && f.b < |forces| && f.c < |forces|
    ensures Total(AddPressure(forces, f, amplitude)) == Add(Total(forces), Scale(3.0 * amplitude, f.normal))
  {
    var n := Scale(amplitude, f.normal);
    var withA := forces[f.a := Add(forces[f.a], n)];
    var withB := withA[f.b := Add(withA[f.b], n)];
    TotalUpdate(forces, f.a, n);
    TotalUpdate(withA, f.b, n);
    TotalUpdate(withB, f.c, n);
    assert Total(AddPressure(forces, f, amplitude)) == Add(Add(Add(Total(forces), n), n), n);
    ScaleThrice(amplitude, f.normal);
  }

  /** Each face adds its pressure exactly three times, once per corner. */
  lemma {:induction false} PressureForcesTotal(forces: seq<Vec3>, faces: seq<Face>, amplitude: real)
    requires FacesInRange(faces, |forces|)
    ensures Total(PressureForces(forces, faces, amplitude)) == Add(Total(forces), Scale(3.0 * amplitude, NormalSum(faces)))
  {
    if |faces| > 0 {
      var init, f := faces[..|faces| - 1], faces[|faces| - 1];
      assert FacesInRange(init, |forces|);
      PressureForcesTotal(forces, init, amplitude);
      AddPressureTotal(PressureForces(forces, init, amplitude), f, amplitude);
      ScaleAdd(3.0 * amplitude, NormalSum(init), f.normal);
    }
  }
}

/** One tick of `inflateMesh` (js/viewer.js:185-252) as a function of the state
    it reads: net force, damped velocity update, explicit Euler position update,
    and the face normals recomputed from the new positions. */
module Simulation {
  import opened Vectors
  import opened Topology
  import opened Forces
  import opened Integrator

  /** What a tick reads and writes: vertex positions, faces (with their normals)
      and per-vertex velocities. */
  datatype SimState = SimState(vertices: seq<Vec3>, faces: seq<Face>, velocities: seq<Vec3>)

  /** The buffers are co-indexed and every face and edge refers to existing vertices. */
  predicate WellFormed(pairs: map<EdgeKey, Edge>, st: SimState) {
    && |st.velocities| == |st.vertices|
    && FacesInRange(st.faces, |st.vertices|)
    && EdgesInRange(pairs, |st.vertices|)
  }

  /** The force buffer once the edge loop and then the face loop have run. */
  ghost function NetForces(pairs: map<EdgeKey, Edge>, st: SimState, stiffness: real, amplitude: real, num: Numerics): (r: seq<Vec3>)
    requires WellFormed(pairs, st)
    ensures |r| == |st.vertices|
  {
    var springs := SpringForces(pairs, pairs.Keys, Zeros(|st.vertices|), st.vertices, stiffness, num);
    PressureForces(springs, st.faces, amplitude)
  }

  /** Every face gets the library's normal of its corners at positions `verts`. */
  function RecomputeNormals(faces: seq<Face>, verts: seq<Vec3>, num: Numerics): (r: seq<Face>)
    requires FacesInRange(faces, |verts|)
    ensures |r| == |faces|
    ensures forall i :: 0 <= i < |faces| ==> r[i].a == faces[i].a && r[i].b == faces[i].b && r[i].c == faces[i].c
  {
    seq(|faces|, i requires 0 <= i < |faces| =>
      faces[i].(normal := num.faceNormal(verts[faces[i].a], verts[faces[i].b], verts[faces[i].c])))
  }

  /** One tick. The new state is well formed again, the buffers keep their
      lengths and every face keeps its corners. */
  ghost function Tick(pairs: map<EdgeKey, Edge>, st: SimState, stiffness: real, amplitude: real, damping: real,
                      num: Numerics): (r: SimState)
    requires WellFormed(pairs, st)
    ensures WellFormed(pairs, r)
    ensures |r.vertices| == |st.vertices| && |r.faces| == |st.faces|
    ensures forall i :: 0 <= i < |st.faces| ==>
      r.faces[i].a == st.faces[i].a && r.faces[i].b == st.faces[i].b && r.faces[i].c == st.faces[i].c
  {
    var forces := NetForces(pairs, st, stiffness, amplitude, num);
    var vels := Damp(st.velocities, forces, damping);
    var verts := Advance(st.vertices, vels);
    SimState(verts, RecomputeNormals(st.faces, verts, num), vels)
  }

  /** `k` ticks in a row with the same parameters. */
  ghost function Ticks(pairs: map<EdgeKey, Edge>, st: SimState, k: nat, stiffness: real, amplitude: real, damping: real,
                       num: Numerics): (r: SimState)
    requires WellFormed(pairs, st)
    ensures WellFormed(pairs, r) && |r.vertices| == |st.vertices|
    decreases k
  {
    if k == 0 then st
    else Ticks(pairs, Tick(pairs, st, stiffness, amplitude, damping, num), k - 1, stiffness, amplitude, damping, num)
  }

  /** Springs cancel pairwise, so the net force sums to the pressure alone:
      three times `amplitude` times the sum of the face normals. */
  lemma NetForcesTotal(pairs: map<EdgeKey, Edge>, st: SimState, stiffness: real, amplitude: real, num: Numerics)
    requires WellFormed(pairs, st)
    ensures Total(NetForces(pairs, st, stiffness, amplitude, num)) == Scale(3.0 * amplitude, NormalSum(st.faces))
  {
    var zeros := Zeros(|st.vertices|);
    var springs := SpringForces(pairs, pairs.Keys, zeros, st.vertices, stiffness, num);
    SpringForcesTotal(pairs, pairs.Keys, zeros, st.vertices, stiffness, num);
    TotalZeros(|st.vertices|);
    PressureForcesTotal(springs, st.faces, amplitude);
  }

  /** Summed over all vertices, a tick changes velocity by the pressure alone:
      the springs' equal and opposite pushes cancel. */
  lemma TickTotalVelocity(pairs: map<EdgeKey, Edge>, st: SimState, stiffness: real, amplitude: real, damping: real,
                          num: Numerics)
    requires WellFormed(pairs, st)
    ensures Total(Tick(pairs, st, stiffness, amplitude, damping, num).velocities)
         == Scale(damping, Add(Total(st.velocities), Scale(3.0 * amplitude, NormalSum(st.faces))))
  {
    NetForcesTotal(pairs, st, stiffness, amplitude, num);
    DampTotal(st.velocities, NetForces(pairs, st, stiffness, amplitude, num), damping);
  }

  /** With no pressure, and no stiffness or every edge at its rest length, the net force is zero. */
  lemma NetForcesVanish(pairs: map<EdgeKey, Edge>, st: SimState, stiffness: real, num: Numerics)
    requires WellFormed(pairs, st)
    requires stiffness == 0.0 || AtRest(pairs, st.vertices, num)
    ensures NetForces(pairs, st, stiffness, 0.0, num) == Zeros(|st.vertices|)
  {
    var zeros := Zeros(|st.vertices|);
    SpringForcesVanish(pairs, pairs.Keys, zeros, st.vertices, stiffness, num);
    forall v | 0 <= v < |st.vertices|
      ensures PressureForces(zeros, st.faces, 0.0)[v] == Zero
    {
      PressureForcesAt(zeros, st.faces, 0.0, v);
    }
  }

  /** A mesh at rest with zero velocity and no pressure does not move, and keeps zero velocity. */
  lemma TickAtRest(pairs: map<EdgeKey, Edge>, st: SimState, stiffness: real, damping: real, num: Numerics)
    requires WellFormed(pairs, st)
    requires stiffness == 0.0 || AtRest(pairs, st.vertices, num)
    requires st.velocities == Zeros(|st.vertices|)
    ensures Tick(pairs, st, stiffness, 0.0, damping, num).vertices == st.vertices
    ensures Tick(pairs, st, stiffness, 0.0, damping, num).velocities == st.velocities
  {
    NetForcesVanish(pairs, st, stiffness, num);
    var r := Tick(pairs, st, stiffness, 0.0, damping, num);
    assert r.velocities == st.velocities;
    assert r.vertices == st.vertices;
  }

  /** ... and so for any number of ticks. */
  lemma {:induction false} TicksAtRest(pairs: map<EdgeKey, Edge>, st: SimState, k: nat, stiffness: real, damping: real,
                                       num: Numerics)
    requires WellFormed(pairs, st)
    requires stiffness == 0.0 || AtRest(pairs, st.vertices, num)
    requires st.velocities == Zeros(|st.vertices|)
    ensures Ticks(pairs, st, k, stiffness, 0.0, damping, num).vertices == st.vertices
    ensures Ticks(pairs, st, k, stiffness, 0.0, damping, num).velocities == st.velocities
    decreases k
  {
    if k > 0 {
      var next := Tick(pairs, st, stiffness, 0.0, damping, num);
      TickAtRest(pairs, st, stiffness, damping, num);
      TicksAtRest(pairs, next, k - 1, stiffness, damping, num);
    }
  }

  /** The edge map built from some positions is in range and at rest in those positions. */
  lemma EdgeMapAtRest(faces: seq<Face>, verts: seq<Vec3>, num: Numerics)
    requires FacesInRange(faces, |verts|)
    ensures EdgesInRange(EdgeMap(faces, verts, num), |verts|)
    ensures AtRest(EdgeMap(faces, verts, num), verts, num)
  {
    EdgeMapValues(faces, verts, num);
  }

  /** Right after initialisation, ticks without pressure leave the mesh where it
      is, whatever the stiffness and damping. */
  lemma StaticAfterInit(faces: seq<Face>, verts: seq<Vec3>, k: nat, stiffness: real, damping: real, num: Numerics)
    requires FacesInRange(faces, |verts|)
    ensures WellFormed(EdgeMap(faces, verts, num), SimState(verts, faces, Zeros(|verts|)))
    ensures Ticks(EdgeMap(faces, verts, num), SimState(verts, faces, Zeros(|verts|)), k, stiffness, 0.0, damping, num).vertices == verts
  {
    EdgeMapAtRest(faces, verts, num);
    TicksAtRest(EdgeMap(faces, verts, num), SimState(verts, faces, Zeros(|verts|)), k, stiffness, damping, num);
  }
}

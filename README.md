# Mesh inflation of the STL viewer

This project models the viewer's mesh-inflation feature, which "inflates" a loaded triangle mesh like a balloon. It has two entry points:

- `initMeshInflation(geometry)` builds a map of the mesh's edges. Each edge is stored once, under its sorted vertex pair, together with its rest length. Every vertex gets a zero velocity.
- `inflateMesh(stiffness, amplitude, damping)` performs one tick:
  1. Every edge acts as a Hooke spring. It pushes `s·u` onto its start vertex and `−s·u` onto its end vertex, where `u` is the unit direction from start to end and `s = stiffness·(length − rest length)`.
  2. Every face adds `amplitude·normal` to each of its three corners.
  3. Velocities become `(velocity + force)·damping`.
  4. Positions advance by the new velocity.
  5. Face normals are recomputed.

The model is imperative where the source is. Both the geometry and the viewer are classes. Vertices, faces, velocities and forces are arrays updated in place. Every loop of the source is a `while` loop with invariants.

Each method is proved against a specification function on sequences:

- `Topology.EdgeMap` specifies the edge map.
- `Forces.SpringForces` specifies the spring loop.
- `Forces.PressureForces` specifies the pressure loop.
- `Integrator.Damp` and `Integrator.Advance` specify the velocity and position updates.
- `Simulation.Tick` specifies a whole tick.

The lemmas state what the design promises about these functions:

- Which keys the edge map holds and what each key maps to.
- The result of the spring loop does not depend on the order in which it visits the keys.
- Springs cancel pairwise.
- Pressure reaches each vertex once per incident face.
- A mesh at rest stays at rest.

Vectors have real components. The graphics library's `length()`, `normalize()` and face-normal computation are not opened up: they are fields of a `Numerics` value that every operation using them takes as a parameter.

## Model

| member | source | states |
|---|---|---|
| Topology.Sort3 | js/viewer.js:144-152 | the three vertex ids of a face, sorted ascending, and a permutation of the face's corners |
| Topology.KeyAt | js/viewer.js:154-161 | the key registered at step `j` of the inner loop: `(ids[j−1], ids[j mod 3])` for j = 1, 2 and `(ids[j mod 3], ids[j−1])` for j = 3; over sorted ids its start never exceeds its end |
| Topology.FaceKeys | js/viewer.js:144-163 | the three keys a face registers, in order, from its sorted ids; each has start ≤ end |
| Topology.FaceKeysAreSides | js/viewer.js:154-163 | the three keys the j-loop builds from the sorted ids are ordered pairs (smaller id first) and together are exactly the face's three sides |
| Topology.FaceKeysStrict | js/viewer.js:154-163 | for a face with three distinct corners every key's start is strictly smaller than its end |
| Topology.Register | js/viewer.js:163-170 | one registration: a key already present leaves the map as it was, otherwise the key is added with its rest edge; the key set becomes the old keys plus this key and no old entry changes |
| Topology.RegisterAll | js/viewer.js:154-171 | the keys registered in order; the last registered key is always present afterwards |
| Topology.RegisterAllKeys | js/viewer.js:163-170 | after registering a sequence of keys, a key is present exactly when it was present before or is one of the keys |
| Topology.RegisterAllValues | js/viewer.js:165-169 | entries present before keep their values; every new entry lies within the vertex buffer and is the rest edge of its key |
| Topology.RegisterFace | js/viewer.js:143-171 | one pass of the face loop registers the face's three keys; every key it adds lies within the vertex buffer |
| Topology.EdgeMap | js/viewer.js:142-172 | the `pairs` dictionary after the face loop over all faces; every key refers to existing vertices |
| Topology.RegisterAllSpec | js/viewer.js:163-170 | registering keys never overwrites an existing entry; the key set grows by exactly the registered keys; each new entry is the edge between its two vertices with its length at registration time |
| Topology.EdgeMapKeys | js/viewer.js:142-172 | the edge map holds a key exactly when it is a side of some face |
| Topology.EdgeMapValues | js/viewer.js:163-170 | every entry has start ≤ end, both within the vertex buffer, and holds the start, end and the length of the vertex difference at initialisation |
| Topology.EdgeMapFirstWins | js/viewer.js:165 | an entry created while scanning a prefix of the faces survives unchanged in the final map |
| Forces.SpringForce | js/viewer.js:205-221 | `stiffness·(length(v[end]−v[start]) − dist)` times `normalize(v[end]−v[start])`; zero when the stiffness is zero or the edge is at its rest length |
| Forces.AddSpring | js/viewer.js:220-226 | one pass of the edge loop: the force added at `start`, its negation at `end`; the buffer keeps its length and no other vertex changes |
| Forces.SpringForces | js/viewer.js:204-227 | the force buffer after the edge loop has visited a set of keys; it keeps the buffer's length |
| Forces.SpringForcesPick | js/viewer.js:204-227 | the spring forces of a set of keys equal those of the set without any one key followed by that key's spring, so the `for…in` visiting order does not matter |
| Forces.SpringForcesTotal | js/viewer.js:220-226 | adding spring forces leaves the sum over all vertices unchanged: each spring's push on its start and its opposite push on its end cancel |
| Forces.SpringForcesVanish | js/viewer.js:213-226 | with zero stiffness, or with every edge at its rest length, the spring loop leaves the force buffer unchanged |
| Forces.AddPressure | js/viewer.js:231-235 | one pass of the face loop: `amplitude·normal` added at `a`, `b` and `c` in turn; the buffer keeps its length and no other vertex changes |
| Forces.PressureForces | js/viewer.js:229-236 | the force buffer after the face loop has visited the faces in order; it keeps the buffer's length |
| Forces.AddPressureAt | js/viewer.js:231-235 | one face adds `amplitude·normal` to a vertex once for each of the face's corners that is that vertex |
| Forces.PressureForcesAt | js/viewer.js:229-236 | after the face loop each vertex's force has grown by `amplitude` times the sum of the normals of its incident faces (counted per corner) |
| Forces.PressureForcesTotal | js/viewer.js:229-236 | the face loop raises the sum of all forces by three times `amplitude` times the sum of the face normals |
| Integrator.Damp | js/viewer.js:238-242 | each new velocity is `(velocity + force)·damping`; one per vertex, and all zero when `damping` is zero |
| Integrator.Advance | js/viewer.js:244-247 | each vertex moves by its velocity; one per vertex, and no vertex moves when every velocity is zero |
| Integrator.DampTotal | js/viewer.js:238-242 | the sum of the damped velocities is `damping` times the sum of the old velocities and the forces |
| Simulation.NetForces | js/viewer.js:197-236 | the force buffer of a tick: zero, then the edge loop over all stored edges, then the face loop; one force per vertex |
| Simulation.RecomputeNormals | js/viewer.js:249 | every face gets the library's normal of its corners at the given positions; the faces keep their order and corners |
| Simulation.Tick | js/viewer.js:185-252 | a tick keeps the state well formed: buffer lengths are kept, every face keeps its corners, and faces and edges stay in range |
| Simulation.Ticks | js/viewer.js:185-252 | any number of ticks keeps the state well formed and the vertex count unchanged |
| Simulation.NetForcesTotal | js/viewer.js:197-236 | the net force sums to three times `amplitude` times the sum of the face normals, whatever the springs do |
| Simulation.TickTotalVelocity | js/viewer.js:185-242 | summed over all vertices, a tick's new velocity is `damping` times (old total velocity + 3·amplitude·sum of normals) |
| Simulation.NetForcesVanish | js/viewer.js:204-236 | with no pressure, and either zero stiffness or every edge at rest length, the net force is zero at every vertex |
| Simulation.TickAtRest | js/viewer.js:185-247 | a mesh at rest, with zero velocities and no pressure, keeps its positions and zero velocities through a tick |
| Simulation.TicksAtRest | js/viewer.js:185-247 | the same holds for any number of ticks |
| Simulation.EdgeMapAtRest | js/viewer.js:163-170 | the edge map built from some positions refers to existing vertices and every edge is at rest length in those positions |
| Simulation.StaticAfterInit | js/viewer.js:135-247 | right after initialisation, any number of ticks with zero amplitude leave every vertex where it was, for any stiffness and damping |
| MeshInflation.ZeroBuffer | js/viewer.js:174-178 | a fresh buffer of `n` zero vectors |
| MeshInflation.RegisterSides | js/viewer.js:143-171 | the j-loop over one face registers that face's keys as the edge-map specification does |
| MeshInflation.BuildPairs | js/viewer.js:142-172 | the face loop builds exactly the specified edge map |
| MeshInflation.AddSpringForces | js/viewer.js:204-227 | the edge loop, visiting keys in any order, turns the force buffer into the specified spring forces |
| MeshInflation.AddPressureForces | js/viewer.js:229-236 | the face loop adds the specified pressure forces in place |
| MeshInflation.UpdateVelocities | js/viewer.js:238-242 | each velocity becomes `(velocity + force)·damping` |
| MeshInflation.UpdatePositions | js/viewer.js:244-247 | each vertex moves by its new velocity |
| MeshInflation.Inflate | js/viewer.js:197-249 | the body of `inflateMesh` once an edge map exists leaves positions, faces and velocities at exactly one `Tick` of their old values |
| MeshInflation.Geometry.ComputeFaceNormals | js/viewer.js:249 | each face's normal becomes the library's normal of its corners at the current positions; corners are untouched |
| MeshInflation.Viewer.Init | js/viewer.js:135-183 | the viewer holds the geometry, the specified edge map and a fresh zero velocity per vertex |
| MeshInflation.Viewer.Step | js/viewer.js:185-252 | without an edge map nothing changes and the result is NotReady; otherwise the new positions, faces and velocities are exactly one `Tick` of the old ones, and the edge map and geometry reference are unchanged |

## Left out

- Floating point: vector components are reals, so rounding, NaN and infinities are not modelled.
- `length()`, `normalize()` and the face-normal computation of the graphics library are opaque functions passed in as `Numerics`. The result of normalising a zero-length difference (a degenerate edge) is whatever the library returns; the model makes no claim about it.
- The edge map's string keys (`start + '_' + end`) are modelled as pairs of vertex ids. This is the same map: the ids are non-negative integers, so the string is injective on pairs.
- `for…in` visiting order is left unspecified. The loop picks any remaining key, and `Forces.SpringForcesPick` shows that the result does not depend on the order.
- `MeshInflation.Viewer.Step`: the "not ready" check comes first. In the source, `this.geometry.faces` (js/viewer.js:188) is read before the check and would throw when no geometry was set. Either way no state changes. The `console.error` message is not modelled.
- Faces whose vertex indices are out of range are excluded by precondition (`FacesInRange`); the source would read `undefined` and throw.
- The `verticesNeedUpdate` / `normalNeedUpdate` flags (js/viewer.js:250-251) only signal the renderer, so they are not modelled. The rest of the viewer (rendering, camera, STL loading and export, UI wiring) is outside this model.
- Parameter validation (negative or non-finite stiffness, amplitude or damping) is not done by the source, so none is modelled.
- The edge count `3F/2` of a closed manifold mesh is not stated; only the key set (the union of all face sides) is.

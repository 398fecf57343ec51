/** Edge extraction of `initMeshInflation` (js/viewer.js:135-172): every face
    registers its three sides, keyed by the ordered index pair, and the first
    registration of a side fixes its rest length. */
module Topology {
  import opened Vectors

  /** A triangle of the loaded geometry: three vertex indices and the face normal. */
  datatype Face = Face(a: nat, b: nat, c: nat, normal: Vec3)

  /** The key of an undirected edge: its two vertex indices, smaller first. */
  type EdgeKey = (nat, nat)

  /** The record stored per edge: its ends and its rest length `dist`. */
  datatype Edge = Edge(start: nat, end: nat, dist: real)

  /** Every face refers to vertices that exist. */
  predicate FacesInRange(faces: seq<Face>, n: nat) {
    forall i :: 0 <= i < |faces| ==> faces[i].a < n && faces[i].b < n && faces[i].c < n
  }

  /** The face's indices in ascending order, as the numeric comparator sorts them. */
  function Sort3(a: nat, b: nat, c: nat): (ids: seq<nat>)
    ensures |ids| == 3 && ids[0] <= ids[1] <= ids[2]
    ensures multiset{ids[0], ids[1], ids[2]} == multiset{a, b, c}
  {
    if a <= b then
      if b <= c then [a, b, c]
      else if a <= c then [a, c, b]
      else [c, a, b]
    else
      if a <= c then [b, a, c]
      else if b <= c then [b, c, a]
      else [c, b, a]
  }

  /** The edge the inner loop registers at step `j` (1, 2 or 3) over the sorted ids. */
  function KeyAt(ids: seq<nat>, j: nat): (k: EdgeKey)
    requires |ids| == 3 && 1 <= j <= 3
    ensures ids[0] <= ids[1] <= ids[2] ==> k.0 <= k.1
  {
    if j < 3 then (ids[j - 1], ids[j % 3]) else (ids[j % 3], ids[j - 1])
  }

  /** The three keys a face registers, in registration order. */
  function FaceKeys(f: Face): (ks: seq<EdgeKey>)
    ensures |ks| == 3 && forall i :: 0 <= i < 3 ==> ks[i].0 <= ks[i].1
  {
    var ids := Sort3(f.a, f.b, f.c);
    [KeyAt(ids, 1), KeyAt(ids, 2), KeyAt(ids, 3)]
  }

  /** The canonical key of the undirected edge between p and q. */
  function Ord(p: nat, q: nat): EdgeKey {
    if p <= q then (p, q) else (q, p)
  }

  /** The canonical keys of a face's three sides, independent of any sorting. */
  function Sides(f: Face): set<EdgeKey> {
    {Ord(f.a, f.b), Ord(f.b, f.c), Ord(f.a, f.c)}
  }

  /** Every registered key is ordered, and the three keys are exactly the
      canonical keys of the face's three sides. */
  lemma FaceKeysAreSides(f: Face)
    ensures forall k :: k in FaceKeys(f) ==> k.0 <= k.1
    ensures (set k | k in FaceKeys(f)) == Sides(f)
  {
    var ids := Sort3(f.a, f.b, f.c);
    assert FaceKeys(f) == [(ids[0], ids[1]), (ids[1], ids[2]), (ids[0], ids[2])];
  }

  /** For a face whose three indices differ, every registered key is strictly ordered. */
  lemma FaceKeysStrict(f: Face)
    requires f.a != f.b && f.b != f.c && f.a != f.c
    ensures forall k :: k in FaceKeys(f) ==> k.0 < k.1
  {
    var ids := Sort3(f.a, f.b, f.c);
    assert FaceKeys(f) == [(ids[0], ids[1]), (ids[1], ids[2]), (ids[0], ids[2])];
  }

  /** The edge record for key `k` with the current distance of its ends as rest length. */
  function RestEdge(verts: seq<Vec3>, k: EdgeKey, num: Numerics): Edge
    requires k.0 < |verts| && k.1 < |verts|
  {
    Edge(k.0, k.1, num.length(Sub(verts[k.1], verts[k.0])))
  }

  /** One registration: a key already present is skipped, never overwritten. */
  function Register(pairs: map<EdgeKey, Edge>, k: EdgeKey, verts: seq<Vec3>, num: Numerics): (r: map<EdgeKey, Edge>)
    requires k.0 < |verts| && k.1 < |verts|
    ensures r.Keys == pairs.Keys + {k}
    ensures forall p :: p in pairs ==> r[p] == pairs[p]
  {
    if k in pairs then pairs else pairs[k := RestEdge(verts, k, num)]
  }

  /** Registration of a sequence of keys, in order. */
  function RegisterAll(pairs: map<EdgeKey, Edge>, ks: seq<EdgeKey>, verts: seq<Vec3>, num: Numerics): (r: map<EdgeKey, Edge>)
    requires forall i :: 0 <= i < |ks| ==> ks[i].0 < |verts| && ks[i].1 < |verts|
    ensures |ks| > 0 ==> ks[|ks| - 1] in r
  {
    if |ks| == 0 then pairs
    else Register(RegisterAll(pairs, ks[..|ks| - 1], verts, num), ks[|ks| - 1], verts, num)
  }

  /** Registering one more key of `ks` registers it on top of the earlier ones. */
  lemma RegisterAllSnoc(pairs: map<EdgeKey, Edge>, ks: seq<EdgeKey>, j: nat, verts: seq<Vec3>, num: Numerics)
    requires forall i :: 0 <= i < |ks| ==> ks[i].0 < |verts| && ks[i].1 < |verts|
    requires 1 <= j <= |ks|
    ensures RegisterAll(pairs, ks[..j], verts, num) == Register(RegisterAll(pairs, ks[..j - 1], verts, num), ks[j - 1], verts, num)
  {
    assert ks[..j][..j - 1] == ks[..j - 1];
  }

  /** The keys of a face in range lie in range. */
  lemma FaceKeysInRange(f: Face, n: nat)
    requires f.a < n && f.b < n && f.c < n
    ensures forall i :: 0 <= i < |FaceKeys(f)| ==> FaceKeys(f)[i].0 < n && FaceKeys(f)[i].1 < n
  {
    var ids := Sort3(f.a, f.b, f.c);
    assert FaceKeys(f) == [(ids[0], ids[1]), (ids[1], ids[2]), (ids[0], ids[2])];
  }

  /** One pass of the face loop: the face's three keys registered in order. */
  function RegisterFace(pairs: map<EdgeKey, Edge>, f: Face, verts: seq<Vec3>, num: Numerics): (r: map<EdgeKey, Edge>)
    requires f.a < |verts| && f.b < |verts| && f.c < |verts|
    ensures forall k :: k in r && k !in pairs ==> k.0 < |verts| && k.1 < |verts|
  {
    FaceKeysInRange(f, |verts|);
    assert forall k :: k in FaceKeys(f) ==> k.0 < |verts| && k.1 < |verts|;
    RegisterAllKeys(pairs, FaceKeys(f), verts, num);
    RegisterAll(pairs, FaceKeys(f), verts, num)
  }

  /** The `pairs` dictionary after the face loop has visited `faces`, in order. */
  function EdgeMap(faces: seq<Face>, verts: seq<Vec3>, num: Numerics): (r: map<EdgeKey, Edge>)
    requires FacesInRange(faces, |verts|)
    ensures forall k :: k in r ==> k.0 < |verts| && k.1 < |verts|
  {
    if |faces| == 0 then map[]
    else RegisterFace(EdgeMap(faces[..|faces| - 1], verts, num), faces[|faces| - 1], verts, num)
  }

  /** Visiting one more face registers its sides on top of the map built so far. */
  lemma EdgeMapSnoc(faces: seq<Face>, i: nat, verts: seq<Vec3>, num: Numerics)
    requires FacesInRange(faces, |verts|) && i < |faces|
    ensures FacesInRange(faces[..i], |verts|) && FacesInRange(faces[..i + 1], |verts|)
    ensures EdgeMap(faces[..i + 1], verts, num) == RegisterFace(EdgeMap(faces[..i], verts, num), faces[i], verts, num)
  {
    assert faces[..i + 1][..i] == faces[..i];
  }

  /** Registration never overwrites: entries present before keep their values,
      the key set grows by exactly the registered keys, and every new entry is
      the rest edge of its key. */
  lemma RegisterAllSpec(pairs: map<EdgeKey, Edge>, ks: seq<EdgeKey>, verts: seq<Vec3>, num: Numerics)
    requires forall i :: 0 <= i < |ks| ==> ks[i].0 < |verts| && ks[i].1 < |verts|
    ensures forall k :: k in pairs ==> k in RegisterAll(pairs, ks, verts, num) && RegisterAll(pairs, ks, verts, num)[k] == pairs[k]
    ensures RegisterAll(pairs, ks, verts, num).Keys == pairs.Keys + (set k | k in ks)
    ensures forall k :: k in RegisterAll(pairs, ks, verts, num) && k !in pairs ==> RegisterAll(pairs, ks, verts, num)[k] == RestEdge(verts, k, num)
  {
    RegisterAllKeys(pairs, ks, verts, num);
    RegisterAllValues(pairs, ks, verts, num);
    assert RegisterAll(pairs, ks, verts, num).Keys == pairs.Keys + (set k | k in ks);
  }

  /** A key is present after registering `ks` exactly when it was present before or is one of `ks`. */
  lemma {:induction false} RegisterAllKeys(pairs: map<EdgeKey, Edge>, ks: seq<EdgeKey>, verts: seq<Vec3>, num: Numerics)
    requires forall i :: 0 <= i < |ks| ==> ks[i].0 < |verts| && ks[i].1 < |verts|
    ensures forall k :: k in RegisterAll(pairs, ks, verts, num) <==> k in pairs || k in ks
  {
    if |ks| > 0 {
      var init, last := ks[..|ks| - 1], ks[|ks| - 1];
      RegisterAllKeys(pairs, init, verts, num);
      assert forall k :: k in ks <==> k in init || k == last by {
        assert ks == init + [last];
      }
    }
  }

  /** Old entries keep their values; new entries are rest edges. */
  lemma {:induction false} RegisterAllValues(pairs: map<EdgeKey, Edge>, ks: seq<EdgeKey>, verts: seq<Vec3>, num: Numerics)
    requires forall i :: 0 <= i < |ks| ==> ks[i].0 < |verts| && ks[i].1 < |verts|
    ensures forall k :: k in pairs ==> k in RegisterAll(pairs, ks, verts, num) && RegisterAll(pairs, ks, verts, num)[k] == pairs[k]
    ensures forall k :: k in RegisterAll(pairs, ks, verts, num) && k !in pairs ==>
      k.0 < |verts| && k.1 < |verts| && RegisterAll(pairs, ks, verts, num)[k] == RestEdge(verts, k, num)
  {
    if |ks| > 0 {
      RegisterAllValues(pairs, ks[..|ks| - 1], verts, num);
    }
  }

  /** The canonical keys of the sides of all faces. */
  function AllSides(faces: seq<Face>): set<EdgeKey> {
    if |faces| == 0 then {} else AllSides(faces[..|faces| - 1]) + Sides(faces[|faces| - 1])
  }

  /** A key is among all sides exactly when some face has it as a side. */
  lemma {:induction false} AllSidesMember(faces: seq<Face>, k: EdgeKey)
    ensures k in AllSides(faces) <==> exists i :: 0 <= i < |faces| && k in Sides(faces[i])
  {
    if |faces| > 0 {
      var init := faces[..|faces| - 1];
      AllSidesMember(init, k);
      if exists i :: 0 <= i < |faces| && k in Sides(faces[i]) {
        var i :| 0 <= i < |faces| && k in Sides(faces[i]);
        if i < |init| { assert k in Sides(init[i]); }
      }
      if k in AllSides(init) {
        var i :| 0 <= i < |init| && k in Sides(init[i]);
        assert k in Sides(faces[i]);
      }
    }
  }

  /** The edge map holds exactly the canonical keys of the sides of the faces:
      an edge shared by several faces is stored once. */
  lemma {:induction false} EdgeMapKeys(faces: seq<Face>, verts: seq<Vec3>, num: Numerics)
    requires FacesInRange(faces, |verts|)
    ensures EdgeMap(faces, verts, num).Keys == AllSides(faces)
    ensures forall k :: k in EdgeMap(faces, verts, num) <==> exists i :: 0 <= i < |faces| && k in Sides(faces[i])
  {
    if |faces| > 0 {
      var init, last := faces[..|faces| - 1], faces[|faces| - 1];
      assert FacesInRange(init, |verts|);
      EdgeMapKeys(init, verts, num);
      FaceKeysInRange(last, |verts|);
      FaceKeysAreSides(last);
      RegisterAllSpec(EdgeMap(init, verts, num), FaceKeys(last), verts, num);
    }
    forall k ensures k in AllSides(faces) <==> exists i :: 0 <= i < |faces| && k in Sides(faces[i]) {
      AllSidesMember(faces, k);
    }
  }

  /** Every stored edge is keyed by its ordered pair of ends, and its rest length
      is the distance between those ends in the positions it was built from. */
  lemma {:induction false} EdgeMapValues(faces: seq<Face>, verts: seq<Vec3>, num: Numerics)
    requires FacesInRange(faces, |verts|)
    ensures forall k :: k in EdgeMap(faces, verts, num) ==>
      k.0 <= k.1 < |verts| && EdgeMap(faces, verts, num)[k] == RestEdge(verts, k, num)
  {
    if |faces| > 0 {
      var init, last := faces[..|faces| - 1], faces[|faces| - 1];
      assert FacesInRange(init, |verts|);
      EdgeMapValues(init, verts, num);
      FaceKeysInRange(last, |verts|);
      FaceKeysAreSides(last);
      RegisterAllSpec(EdgeMap(init, verts, num), FaceKeys(last), verts, num);
    }
  }

  /** Edges registered by an earlier prefix of the faces keep their entry to the end. */
  lemma {:induction false} EdgeMapFirstWins(faces: seq<Face>, j: nat, verts: seq<Vec3>, num: Numerics)
    requires FacesInRange(faces, |verts|) && j <= |faces|
    ensures FacesInRange(faces[..j], |verts|)
    ensures forall k :: k in EdgeMap(faces[..j], verts, num) ==>
      k in EdgeMap(faces, verts, num) && EdgeMap(faces, verts, num)[k] == EdgeMap(faces[..j], verts, num)[k]
  {
    assert FacesInRange(faces[..j], |verts|);
    if j < |faces| {
      var init := faces[..|faces| - 1];
      assert init[..j] == faces[..j];
      EdgeMapFirstWins(init, j, verts, num);
      FaceKeysInRange(faces[|faces| - 1], |verts|);
      RegisterAllSpec(EdgeMap(init, verts, num), FaceKeys(faces[|faces| - 1]), verts, num);
    } else {
      assert faces[..j] == faces;
    }
  }
}

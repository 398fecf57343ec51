/** The integration loops of `inflateMesh` (js/viewer.js:238-247): damped
    velocity update, then explicit Euler position update. */
module Integrator {
  import opened Vectors

  /** `velocity[i] = (velocity[i] + force[i])·damping`: damping applies to the sum. */
  function Damp(vels: seq<Vec3>, forces: seq<Vec3>, damping: real): (r: seq<Vec3>)
    requires |forces| == |vels|
    ensures |r| == |vels|
    ensures damping == 0.0 ==> r == Zeros(|vels|)
  {
    seq(|vels|, i requires 0 <= i < |vels| => Scale(damping, Add(vels[i], forces[i])))
  }

  /** `vertices[i] += velocity[i]` */
  function Advance(verts: seq<Vec3>, vels: seq<Vec3>): (r: seq<Vec3>)
    requires |vels| == |verts|
    ensures |r| == |verts|
    ensures vels == Zeros(|vels|) ==> r == verts
  {
    seq(|verts|, i requires 0 <= i < |verts| => Add(verts[i], vels[i]))
  }

  /** Damping the sum of two buffers damps the sum of their totals. */
  lemma DampTotal(vels: seq<Vec3>, forces: seq<Vec3>, damping: real)
    requires |forces| == |vels|
    ensures Total(Damp(vels, forces, damping)) == Scale(damping, Add(Total(vels), Total(forces)))
  {
    var sums := seq(|vels|, i requires 0 <= i < |vels| => Add(vels[i], forces[i]));
    assert Damp(vels, forces, damping) == seq(|sums|, i requires 0 <= i < |sums| => Scale(damping, sums[i]));
    TotalScaled(sums, damping);
    TotalSums(vels, forces);
  }

  /** The total of entrywise sums is the sum of the totals. */
  lemma {:induction false} TotalSums(u: seq<Vec3>, v: seq<Vec3>)
    requires |u| == |v|
    ensures Total(seq(|u|, i requires 0 <= i < |u| => Add(u[i], v[i]))) == Add(Total(u), Total(v))
  {
    var n := |u|;
    if n > 0 {
      var w := seq(n, i requires 0 <= i < n => Add(u[i], v[i]));
      assert w[..n - 1] == seq(n - 1, i requires 0 <= i < n - 1 => Add(u[..n - 1][i], v[..n - 1][i]));
      TotalSums(u[..n - 1], v[..n - 1]);
    }
  }

  /** The total of a scaled buffer is the scaled total. */
  lemma {:induction false} TotalScaled(w: seq<Vec3>, k: real)
    ensures Total(seq(|w|, i requires 0 <= i < |w| => Scale(k, w[i]))) == Scale(k, Total(w))
  {
    var n := |w|;
    if n > 0 {
      var s := seq(n, i requires 0 <= i < n => Scale(k, w[i]));
      assert s[..n - 1] == seq(n - 1, i requires 0 <= i < n - 1 => Scale(k, w[..n - 1][i]));
      TotalScaled(w[..n - 1], k);
      ScaleAdd(k, Total(w[..n - 1]), w[n - 1]);
    }
  }
}

/** The flat-normal loop: one normal per triangle, written to all three corners. */
module FlatNormals {
  import opened JsValues

  /** `positions[i]`, which is `undefined` past the end. */
  function Read<P>(positions: seq<Option<P>>, i: nat): Option<P>
  {
    if i < |positions| then positions[i] else None
  }

  /** The normal of face `k`: `normalOf` stands for
      `normalize(cross(subtract(p3, p2), subtract(p1, p2)))` applied to the
      face's three corners `p1, p2, p3`. */
  function FaceNormal<P, N>(positions: seq<Option<P>>, normalOf: (Option<P>, Option<P>, Option<P>) -> N, k: nat): N
  {
    normalOf(Read(positions, 3 * k), Read(positions, 3 * k + 1), Read(positions, 3 * k + 2))
  }

  /** The normals the loop pushes from position `i` on, `i` stepping by 3. */
  function NormalsFrom<P, N>(positions: seq<Option<P>>, normalOf: (Option<P>, Option<P>, Option<P>) -> N, i: nat): seq<N>
    decreases |positions| - i
  {
    if i >= |positions| then []
    else
      var n := normalOf(Read(positions, i), Read(positions, i + 1), Read(positions, i + 2));
      [n, n, n] + NormalsFrom(positions, normalOf, i + 3)
  }

  /** The number of faces the loop visits: `positions.length` divided by 3, rounded up. */
  function FaceCount(n: nat): nat
  {
    (n + 2) / 3
  }

  /** A normal written to the three corners of a face. */
  function Triple<N>(n: N): seq<N>
  {
    [n, n, n]
  }

  /** The walk from `3k` on covers faces `k` up to `FaceCount` and gives each
      its own normal three times, in face order. */
  lemma {:induction false} NormalsFromFace<P, N>(positions: seq<Option<P>>, normalOf: (Option<P>, Option<P>, Option<P>) -> N, k: nat)
    requires k <= FaceCount(|positions|)
    ensures |NormalsFrom(positions, normalOf, 3 * k)| == 3 * (FaceCount(|positions|) - k)
    ensures forall f :: k <= f < FaceCount(|positions|) ==>
      NormalsFrom(positions, normalOf, 3 * k)[3 * (f - k)..3 * (f - k) + 3] == Triple(FaceNormal(positions, normalOf, f))
    decreases FaceCount(|positions|) - k
  {
    if 3 * k < |positions| {
      NormalsFromFace(positions, normalOf, k + 1);
      var n := FaceNormal(positions, normalOf, k);
      var tail := NormalsFrom(positions, normalOf, 3 * (k + 1));
      assert 3 * (k + 1) == 3 * k + 3;
      assert NormalsFrom(positions, normalOf, 3 * k) == Triple(n) + tail;
      forall f | k <= f < FaceCount(|positions|)
        ensures NormalsFrom(positions, normalOf, 3 * k)[3 * (f - k)..3 * (f - k) + 3] == Triple(FaceNormal(positions, normalOf, f))
      {
        if f > k {
          var a := 3 * (f - (k + 1));
          assert 3 * (f - k) == a + 3;
          assert (Triple(n) + tail)[a + 3..a + 6] == tail[a..a + 3];
        } else {
          assert (Triple(n) + tail)[0..3] == Triple(n);
        }
      }
    }
  }

  /** The normal stream has one entry per corner visited: `positions.length`
      rounded up to a multiple of 3, so exactly `positions.length` when
      that is a multiple of 3. */
  lemma NormalsLength<P, N>(positions: seq<Option<P>>, normalOf: (Option<P>, Option<P>, Option<P>) -> N)
    ensures |NormalsFrom(positions, normalOf, 0)| == 3 * FaceCount(|positions|)
    ensures |positions| % 3 == 0 ==> |NormalsFrom(positions, normalOf, 0)| == |positions|
  {
    NormalsFromFace(positions, normalOf, 0);
  }

  /** For `faces` whole triangles, the normal stream is as long as the positions. */
  lemma NormalsLengthFaces<P, N>(positions: seq<Option<P>>, normalOf: (Option<P>, Option<P>, Option<P>) -> N, faces: nat)
    requires |positions| == 3 * faces
    ensures |NormalsFrom(positions, normalOf, 0)| == |positions|
  {
    NormalsLength(positions, normalOf);
  }

  /** Slice 3k..3k+2 of the normal stream is face `k`'s normal three times. */
  lemma NormalsSlice<P, N>(positions: seq<Option<P>>, normalOf: (Option<P>, Option<P>, Option<P>) -> N, k: nat)
    requires 3 * k < |positions|
    ensures 3 * k + 3 <= |NormalsFrom(positions, normalOf, 0)|
    ensures NormalsFrom(positions, normalOf, 0)[3 * k..3 * k + 3] == Triple(FaceNormal(positions, normalOf, k))
  {
    NormalsFromFace(positions, normalOf, 0);
    assert k < FaceCount(|positions|);
    assert 3 * (k - 0) == 3 * k;
  }

  /** Corners `3k`, `3k+1`, `3k+2` all hold face `k`'s normal. */
  lemma NormalsTriplicated<P, N>(positions: seq<Option<P>>, normalOf: (Option<P>, Option<P>, Option<P>) -> N, k: nat)
    requires 3 * k < |positions|
    ensures 3 * k + 2 < |NormalsFrom(positions, normalOf, 0)|
    ensures NormalsFrom(positions, normalOf, 0)[3 * k] == FaceNormal(positions, normalOf, k)
    ensures NormalsFrom(positions, normalOf, 0)[3 * k + 1] == FaceNormal(positions, normalOf, k)
    ensures NormalsFrom(positions, normalOf, 0)[3 * k + 2] == FaceNormal(positions, normalOf, k)
  {
    NormalsSlice(positions, normalOf, k);
    var s := NormalsFrom(positions, normalOf, 0);
    assert s[3 * k + 1] == s[3 * k..3 * k + 3][1];
    assert s[3 * k + 2] == s[3 * k..3 * k + 3][2];
  }

  /** A face's normals depend only on that face's three positions: two
      position streams that agree there give the same three normals. */
  lemma NormalsLocal<P, N>(ps: seq<Option<P>>, qs: seq<Option<P>>, normalOf: (Option<P>, Option<P>, Option<P>) -> N, k: nat)
    requires 3 * k < |ps| && 3 * k < |qs|
    requires Read(ps, 3 * k) == Read(qs, 3 * k)
    requires Read(ps, 3 * k + 1) == Read(qs, 3 * k + 1)
    requires Read(ps, 3 * k + 2) == Read(qs, 3 * k + 2)
    ensures 3 * k + 2 < |NormalsFrom(ps, normalOf, 0)| && 3 * k + 2 < |NormalsFrom(qs, normalOf, 0)|
    ensures NormalsFrom(ps, normalOf, 0)[3 * k..3 * k + 3] == NormalsFrom(qs, normalOf, 0)[3 * k..3 * k + 3]
  {
    var n := FaceNormal(ps, normalOf, k);
    assert n == FaceNormal(qs, normalOf, k);
    NormalsSlice(ps, normalOf, k);
    NormalsSlice(qs, normalOf, k);
  }

  /** The loop `for (i = 0; i < positions.length; i += 3)` that pushes each
      face's normal three times. */
  method ComputeFlatNormals<P, N>(positions: seq<Option<P>>, normalOf: (Option<P>, Option<P>, Option<P>) -> N)
    returns (normals: seq<N>)
    ensures normals == NormalsFrom(positions, normalOf, 0)
  {
    normals := [];
    var i := 0;
    while i < |positions|
      invariant i % 3 == 0
      invariant normals + NormalsFrom(positions, normalOf, i) == NormalsFrom(positions, normalOf, 0)
      decreases |positions| - i
    {
      var p1 := Read(positions, i);
      var p2 := Read(positions, i + 1);
      var p3 := Read(positions, i + 2);
      var normal := normalOf(p1, p2, p3);
      assert NormalsFrom(positions, normalOf, i) == [normal, normal, normal] + NormalsFrom(positions, normalOf, i + 3);
      normals := normals + [normal];
      normals := normals + [normal];
      normals := normals + [normal];
      i := i + 3;
    }
  }
}

/**
 * The ribbon a stroke is drawn as, stated as functions of the accepted samples: two
 * vertices per sample, a quad strip of triangles between consecutive pairs, the outline
 * polygon used as collision shape, the path length that drives the texture coordinate,
 * and the centroid a finished stroke is recentred on. `norm` stands for the engine's
 * `normalized` and `dist` for `Vector2.Distance`; the structural facts hold whatever
 * values they take.
 */
module Ribbon {
  import opened Geometry

  // ---------------------------------------------------------------- vertices

  /** Direction at sample i: the normalised step from the previous sample, +x for the first. */
  function DirectionAt(pts: seq<Vec>, i: nat, norm: Vec -> Vec): Vec
    requires i < |pts|
  {
    if i == 0 then Right else norm(Sub(pts[i], pts[i - 1]))
  }

  /**
   * The offset a drawer gives a vertex pair for a direction: the normal (the direction
   * turned a quarter left) scaled by half the thickness.
   */
  function HalfNormal(thickness: real): Vec -> Vec
  {
    d => Scale(Perp(d), thickness * 0.5)
  }

  /** Offset of sample i's vertices from the sample, for the offset function `side`. */
  function OffsetAt(pts: seq<Vec>, i: nat, norm: Vec -> Vec, side: Vec -> Vec): Vec
    requires i < |pts|
  {
    side(DirectionAt(pts, i, norm))
  }

  function LeftAt(pts: seq<Vec>, i: nat, norm: Vec -> Vec, side: Vec -> Vec): Vec
    requires i < |pts|
  {
    Add(pts[i], OffsetAt(pts, i, norm, side))
  }

  function RightAt(pts: seq<Vec>, i: nat, norm: Vec -> Vec, side: Vec -> Vec): Vec
    requires i < |pts|
  {
    Sub(pts[i], OffsetAt(pts, i, norm, side))
  }

  /** The vertex buffer of a ribbon over `pts`: each sample contributes its left then its right vertex. */
  function Verts(pts: seq<Vec>, norm: Vec -> Vec, side: Vec -> Vec): (vs: seq<Vec>)
    ensures |vs| == 2 * |pts|
    decreases |pts|
  {
    if pts == [] then []
    else
      var n := |pts| - 1;
      Verts(pts[..n], norm, side) + [LeftAt(pts, n, norm, side), RightAt(pts, n, norm, side)]
  }

  /** The pair of sample i does not depend on later samples. */
  lemma PrefixPair(pts: seq<Vec>, m: nat, i: nat, norm: Vec -> Vec, side: Vec -> Vec)
    requires i < m <= |pts|
    ensures LeftAt(pts[..m], i, norm, side) == LeftAt(pts, i, norm, side)
    ensures RightAt(pts[..m], i, norm, side) == RightAt(pts, i, norm, side)
  {
    assert pts[..m][i] == pts[i];
    if i > 0 { assert pts[..m][i - 1] == pts[i - 1]; }
  }

  /**
   * Vertex 2i is the left and vertex 2i+1 the right offset of sample i: the two are
   * symmetric about the sample, whatever the offset.
   */
  lemma {:induction false} VertsAt(pts: seq<Vec>, i: nat, norm: Vec -> Vec, side: Vec -> Vec)
    requires i < |pts|
    ensures Verts(pts, norm, side)[2 * i] == LeftAt(pts, i, norm, side)
    ensures Verts(pts, norm, side)[2 * i + 1] == RightAt(pts, i, norm, side)
    ensures Add(Verts(pts, norm, side)[2 * i], Verts(pts, norm, side)[2 * i + 1]) == Scale(pts[i], 2.0)
    decreases |pts|
  {
    var n := |pts| - 1;
    if i < n {
      VertsAt(pts[..n], i, norm, side);
      PrefixPair(pts, n, i, norm, side);
    }
  }

  /** With the drawers' offset, the two vertices of a sample lie a full thickness apart along its normal. */
  lemma VertsWidth(pts: seq<Vec>, i: nat, norm: Vec -> Vec, thickness: real)
    requires i < |pts|
    ensures Sub(Verts(pts, norm, HalfNormal(thickness))[2 * i], Verts(pts, norm, HalfNormal(thickness))[2 * i + 1])
         == Scale(Perp(DirectionAt(pts, i, norm)), thickness)
  {
    VertsAt(pts, i, norm, HalfNormal(thickness));
    var d := DirectionAt(pts, i, norm);
    var o := Scale(Perp(d), thickness * 0.5);
    assert OffsetAt(pts, i, norm, HalfNormal(thickness)) == o;
    PairWidth(pts[i], o);
    DoubleHalf(Perp(d), thickness);
  }

  lemma PairWidth(p: Vec, o: Vec)
    ensures Sub(Add(p, o), Sub(p, o)) == Scale(o, 2.0)
  {
  }

  lemma DoubleHalf(n: Vec, t: real)
    ensures Scale(Scale(n, t * 0.5), 2.0) == Scale(n, t)
  {
  }

  /** Appending a sample appends exactly its two vertices. */
  lemma VertsSnoc(pts: seq<Vec>, p: Vec, norm: Vec -> Vec, side: Vec -> Vec)
    ensures Verts(pts + [p], norm, side)
         == Verts(pts, norm, side) + [LeftAt(pts + [p], |pts|, norm, side), RightAt(pts + [p], |pts|, norm, side)]
  {
    assert (pts + [p])[..|pts|] == pts;
  }

  // ---------------------------------------------------------------- triangles

  /** The two triangles joining the pair ending at vertex i to the pair before it. */
  function Quad(i: int): seq<int>
  {
    [i - 3, i - 2, i - 1, i - 1, i - 2, i]
  }

  /** The index buffer of a ribbon over n samples: one quad per sample after the first. */
  function QuadStrip(n: nat): seq<int>
  {
    if n <= 1 then [] else QuadStrip(n - 1) + Quad(2 * n - 1)
  }

  /** Six indices per segment. */
  lemma {:induction false} QuadStripLength(n: nat)
    ensures |QuadStrip(n)| == if n == 0 then 0 else 6 * (n - 1)
  {
    if n > 1 {
      QuadStripLength(n - 1);
    }
  }

  /** Six indices per segment, every index naming an existing vertex. */
  lemma {:induction false} QuadStripShape(n: nat)
    ensures |QuadStrip(n)| == if n == 0 then 0 else 6 * (n - 1)
    ensures forall k :: 0 <= k < |QuadStrip(n)| ==> 0 <= QuadStrip(n)[k] < 2 * n
  {
    QuadStripLength(n);
    if n > 1 {
      QuadStripShape(n - 1);
      var prev := QuadStrip(n - 1);
      assert QuadStrip(n) == prev + Quad(2 * n - 1);
      forall k | 0 <= k < |QuadStrip(n)| ensures 0 <= QuadStrip(n)[k] < 2 * n {
        if k < |prev| { assert QuadStrip(n)[k] == prev[k]; }
        else { assert QuadStrip(n)[k] == Quad(2 * n - 1)[k - |prev|]; }
      }
    }
  }

  /**
   * Segment j (between samples j and j+1) occupies indices 6j .. 6j+5 and joins pairs j
   * and j+1: the triangles (2j, 2j+1, 2j+2) and (2j+2, 2j+1, 2j+3).
   */
  lemma {:induction false} QuadStripAt(n: nat, j: nat)
    requires j + 1 < n
    ensures 6 * j + 6 <= |QuadStrip(n)|
    ensures forall k :: 6 * j <= k < 6 * j + 6 ==> QuadStrip(n)[k] == Quad(2 * j + 3)[k - 6 * j]
  {
    QuadStripLength(n);
    QuadStripLength(n - 1);
    var prev, last := QuadStrip(n - 1), Quad(2 * n - 1);
    assert QuadStrip(n) == prev + last;
    if j + 2 < n {
      QuadStripAt(n - 1, j);
      forall k | 6 * j <= k < 6 * j + 6 ensures QuadStrip(n)[k] == Quad(2 * j + 3)[k - 6 * j] {
        assert QuadStrip(n)[k] == prev[k];
      }
    } else {
      assert 2 * n - 1 == 2 * j + 3 && |prev| == 6 * j;
      forall k | 6 * j <= k < 6 * j + 6 ensures QuadStrip(n)[k] == Quad(2 * j + 3)[k - 6 * j] {
        assert QuadStrip(n)[k] == last[k - 6 * j];
      }
    }
  }

  // ---------------------------------------------------------------- outline

  /** The left vertices (even positions) of a vertex buffer, in order. */
  function Lefts(vs: seq<Vec>): (ls: seq<Vec>)
    ensures |ls| == |vs| / 2
  {
    seq(|vs| / 2, i requires 0 <= i < |vs| / 2 => vs[2 * i])
  }

  /** The right vertices (odd positions) of a vertex buffer, in order. */
  function Rights(vs: seq<Vec>): (rs: seq<Vec>)
    ensures |rs| == |vs| / 2
  {
    seq(|vs| / 2, i requires 0 <= i < |vs| / 2 => vs[2 * i + 1])
  }

  function Reverse<T>(s: seq<T>): (r: seq<T>)
    ensures |r| == |s|
  {
    if s == [] then [] else Reverse(s[1..]) + [s[0]]
  }

  lemma {:induction false} ReverseAt<T>(s: seq<T>, k: nat)
    requires k < |s|
    ensures Reverse(s)[k] == s[|s| - 1 - k]
  {
    if k < |s| - 1 {
      ReverseAt(s[1..], k);
    }
  }

  /** The outline polygon: left vertices forward, then right vertices backward. */
  function Outline(vs: seq<Vec>): seq<Vec>
  {
    Lefts(vs) + Reverse(Rights(vs))
  }

  /**
   * With p = |vs| / 2 vertex pairs the outline has 2p points: point k < p is left
   * vertex k, point p + k is right vertex p - 1 - k.
   */
  lemma OutlineAt(vs: seq<Vec>, k: nat)
    requires k < 2 * (|vs| / 2)
    ensures |Outline(vs)| == 2 * (|vs| / 2)
    ensures k < |vs| / 2 ==> Outline(vs)[k] == vs[2 * k]
    ensures k >= |vs| / 2 ==> Outline(vs)[k] == vs[2 * (2 * (|vs| / 2) - 1 - k) + 1]
  {
    var p := |vs| / 2;
    if k >= p {
      ReverseAt(Rights(vs), k - p);
    }
  }

  /**
   * The loop the drawers run to rebuild the outline: collect the left and right vertex
   * of each pair, then append the rights reversed.
   */
  method BuildOutline(verts: seq<Vec>) returns (outline: seq<Vec>)
    ensures outline == Outline(verts)
  {
    var pair := |verts| / 2;
    var lefts: seq<Vec> := [];
    var rights: seq<Vec> := [];
    for i := 0 to pair
      invariant lefts == Lefts(verts)[..i]
      invariant rights == Rights(verts)[..i]
    {
      lefts := lefts + [verts[i * 2]];
      rights := rights + [verts[i * 2 + 1]];
    }
    assert lefts == Lefts(verts);
    assert rights == Rights(verts);
    outline := lefts + Reverse(rights);
  }

  /** With at least two vertex pairs, the outline becomes the left vertices forward and the right ones backward; otherwise it is kept. */
  method RebuildOutline(verts: seq<Vec>, outline: seq<Vec>) returns (outline': seq<Vec>)
    ensures |verts| >= 4 ==> outline' == Outline(verts)
    ensures |verts| < 4 ==> outline' == outline
  {
    var pair := |verts| / 2;
    if pair < 2 {
      return outline;
    }
    outline' := BuildOutline(verts);
  }

  // ---------------------------------------------------------------- growing a ribbon

  /**
   * The buffers a drawer keeps while a stroke grows: the vertices and triangles of the
   * samples, and the outline once there are two samples (empty before).
   */
  ghost predicate Ribboned(pts: seq<Vec>, verts: seq<Vec>, tris: seq<int>, outline: seq<Vec>, norm: Vec -> Vec, side: Vec -> Vec)
  {
    && verts == Verts(pts, norm, side)
    && tris == QuadStrip(|pts|)
    && outline == (if |pts| >= 2 then Outline(verts) else [])
  }

  /**
   * Appending one sample keeps the buffers a ribbon: two vertices, a quad on the last
   * two pairs after the first sample, and the rebuilt outline.
   */
  lemma RibbonAppend(pts: seq<Vec>, verts: seq<Vec>, tris: seq<int>, outline: seq<Vec>, p: Vec, norm: Vec -> Vec, side: Vec -> Vec)
    requires Ribboned(pts, verts, tris, outline, norm, side)
    ensures var vs := verts + [LeftAt(pts + [p], |pts|, norm, side), RightAt(pts + [p], |pts|, norm, side)];
            Ribboned(pts + [p], vs, tris + (if |pts| >= 1 then Quad(2 * |pts| + 1) else []),
                     if |pts| >= 1 then Outline(vs) else [], norm, side)
  {
    VertsSnoc(pts, p, norm, side);
    assert |pts + [p]| == |pts| + 1;
    assert QuadStrip(|pts| + 1) == tris + (if |pts| >= 1 then Quad(2 * |pts| + 1) else []);
  }

  /** The outline over `k` vertex pairs has one point per vertex. */
  lemma OutlineLength(vs: seq<Vec>, k: nat)
    requires |vs| == 2 * k
    ensures |Outline(vs)| == |vs|
  {
  }

  /** The outline of a ribbon with two samples or more has as many points as there are vertices. */
  lemma RibbonOutlineSize(pts: seq<Vec>, verts: seq<Vec>, tris: seq<int>, outline: seq<Vec>, norm: Vec -> Vec, side: Vec -> Vec)
    requires Ribboned(pts, verts, tris, outline, norm, side)
    ensures |pts| >= 2 ==> |outline| == |verts| >= 4
    ensures |pts| < 2 ==> outline == []
  {
  }

  // ---------------------------------------------------------------- recentring

  function Sum(vs: seq<Vec>): Vec
  {
    if vs == [] then Zero else Add(Sum(vs[..|vs| - 1]), vs[|vs| - 1])
  }

  /** The mean of a non-empty vertex buffer (`center /= verts.Count`). */
  function Centroid(vs: seq<Vec>): Vec
    requires |vs| > 0
  {
    var s := Sum(vs);
    Vec(s.x / (|vs| as real), s.y / (|vs| as real))
  }

  /** Every point moved by -c. */
  function Shift(vs: seq<Vec>, c: Vec): (r: seq<Vec>)
    ensures |r| == |vs|
  {
    seq(|vs|, i requires 0 <= i < |vs| => Sub(vs[i], c))
  }

  lemma {:induction false} SumShift(vs: seq<Vec>, c: Vec)
    ensures Sum(Shift(vs, c)) == Sub(Sum(vs), Scale(c, |vs| as real))
  {
    if vs != [] {
      var n := |vs| - 1;
      assert Shift(vs, c)[..n] == Shift(vs[..n], c);
      SumShift(vs[..n], c);
    }
  }

  /** Recentring on the centroid leaves vertices whose sum, hence whose mean, is zero. */
  lemma CentredSumIsZero(vs: seq<Vec>)
    requires |vs| > 0
    ensures Sum(Shift(vs, Centroid(vs))) == Zero
  {
    var c := Centroid(vs);
    SumShift(vs, c);
    MeanTimesCount(Sum(vs), |vs| as real);
  }

  lemma MeanTimesCount(s: Vec, n: real)
    requires n != 0.0
    ensures Sub(s, Scale(Vec(s.x / n, s.y / n), n)) == Zero
  {
  }

  /** Shifting the vertices and then taking the outline equals shifting the outline. */
  lemma OutlineShift(vs: seq<Vec>, c: Vec)
    ensures Outline(Shift(vs, c)) == Shift(Outline(vs), c)
  {
    var o1, o2 := Outline(Shift(vs, c)), Shift(Outline(vs), c);
    var p := |vs| / 2;
    assert |o1| == |o2| == 2 * p;
    forall k | 0 <= k < 2 * p ensures o1[k] == o2[k] {
      OutlineAt(Shift(vs, c), k);
      OutlineAt(vs, k);
    }
  }

  /** The loop that sums the vertices and divides by their count. */
  method CentreOf(verts: seq<Vec>) returns (center: Vec)
    requires |verts| > 0
    ensures center == Centroid(verts)
  {
    var s := Zero;
    for i := 0 to |verts|
      invariant s == Sum(verts[..i])
    {
      assert verts[..i + 1][..i] == verts[..i];
      s := Add(s, verts[i]);
    }
    assert verts[..|verts|] == verts;
    center := Vec(s.x / (|verts| as real), s.y / (|verts| as real));
  }

  // ---------------------------------------------------------------- path length and texture coordinates

  /** Length of the polyline through the samples, as accumulated one step at a time. */
  function PathLength(pts: seq<Vec>, dist: (Vec, Vec) -> real): real
  {
    if |pts| <= 1 then 0.0
    else PathLength(pts[..|pts| - 1], dist) + dist(pts[|pts| - 2], pts[|pts| - 1])
  }

  ghost predicate NonNegative(dist: (Vec, Vec) -> real)
  {
    forall a, b :: dist(a, b) >= 0.0
  }

  /** With a non-negative distance the path length is non-negative and never shrinks as samples are added. */
  lemma {:induction false} PathLengthMonotone(pts: seq<Vec>, p: Vec, dist: (Vec, Vec) -> real)
    requires NonNegative(dist)
    ensures 0.0 <= PathLength(pts, dist) <= PathLength(pts + [p], dist)
    decreases |pts|
  {
    assert (pts + [p])[..|pts|] == pts;
    if |pts| > 1 {
      PathLengthMonotone(pts[..|pts| - 1], pts[|pts| - 1], dist);
      assert pts[..|pts| - 1] + [pts[|pts| - 1]] == pts;
    }
    if pts != [] {
      assert dist(pts[|pts| - 1], p) >= 0.0;
    }
  }

  /** One sample's two texture coordinates: u = 0 on the left, u = 1 on the right, sharing v. */
  function UvRow(v: real): seq<Vec>
  {
    [Vec(0.0, v), Vec(1.0, v)]
  }

  /** The texture coordinate v for a length drawn so far in the length-driven scheme: `length * (uvScale * 0.2)`. */
  function LengthV(uvScale: real): real -> real
  {
    len => len * (uvScale * 0.2)
  }

  /** Texture coordinates following the length drawn so far, for the length-to-v map `vOf`. */
  function PathUvs(pts: seq<Vec>, dist: (Vec, Vec) -> real, vOf: real -> real): (uvs: seq<Vec>)
    ensures |uvs| == 2 * |pts|
  {
    if pts == [] then []
    else PathUvs(pts[..|pts| - 1], dist, vOf) + UvRow(vOf(PathLength(pts, dist)))
  }

  /** Texture coordinates following the sample count (`v = count / 10`). */
  function CountUvs(n: nat): (uvs: seq<Vec>)
    ensures |uvs| == 2 * n
  {
    if n == 0 then [] else CountUvs(n - 1) + UvRow((n as real) / 10.0)
  }

  /** Sample i's pair of texture coordinates in the count-driven scheme has v = (i + 1) / 10. */
  lemma {:induction false} CountUvsAt(n: nat, i: nat)
    requires i < n
    ensures CountUvs(n)[2 * i] == Vec(0.0, ((i + 1) as real) / 10.0)
    ensures CountUvs(n)[2 * i + 1] == Vec(1.0, ((i + 1) as real) / 10.0)
  {
    if i < n - 1 {
      CountUvsAt(n - 1, i);
    }
  }
}

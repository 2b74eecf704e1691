/**
 * The current stroke drawer (DrawManager.cs): pointer samples inside a draw area grow a
 * ribbon in place; on release a degenerate stroke is dropped and any other stroke is
 * recentred on its centroid and kept as a body under the strokes root. The point query
 * that finds the draw area under a sample is an input (`hit`); `norm` and `dist` stand
 * for the engine's `normalized` and `Vector2.Distance`, `side` for the half-thickness
 * offset along the normal and `vOf` for the length-to-texture map.
 */
module StrokeDrawing {
  import opened Optional
  import opened Geometry
  import opened Ribbon

  /** A draw area collider, by identity. */
  type Area = nat

  /** A stroke turned into a body: its world position and its mesh and outline in local coordinates. */
  datatype FinishedStroke = FinishedStroke(position: Vec, verts: seq<Vec>, tris: seq<int>, uvs: seq<Vec>, outline: seq<Vec>)

  // ---------------------------------------------------------------- the buffers as values

  /**
   * The buffers of the stroke in progress, which the drawer appends to together and
   * clears together: samples, vertices, triangle indices, texture coordinates, outline,
   * and the length drawn so far.
   */
  datatype Buffers = Buffers(pts: seq<Vec>, verts: seq<Vec>, tris: seq<int>, uvs: seq<Vec>, outline: seq<Vec>, pathLength: real)

  /** The five lists emptied; the length is left as it is (it is reset only when a stroke begins). */
  function Cleared(b: Buffers): (c: Buffers)
    ensures c.pts == [] && c.verts == [] && c.tris == [] && c.uvs == [] && c.outline == []
    ensures c.pathLength == b.pathLength
  {
    b.(pts := [], verts := [], tris := [], uvs := [], outline := [])
  }

  /**
   * The buffers of a stroke in progress are the ribbon of its samples: vertices, triangles
   * and outline, texture rows that follow the length drawn, and that length itself.
   */
  ghost predicate Drawn(b: Buffers, norm: Vec -> Vec, side: Vec -> Vec, dist: (Vec, Vec) -> real, vOf: real -> real)
  {
    && Ribboned(b.pts, b.verts, b.tris, b.outline, norm, side)
    && b.uvs == PathUvs(b.pts, dist, vOf)
    && (b.pts != [] ==> b.pathLength == PathLength(b.pts, dist))
  }

  /** Emptied buffers are the ribbon of no samples, whatever the length left over. */
  lemma DrawnCleared(b: Buffers, norm: Vec -> Vec, side: Vec -> Vec, dist: (Vec, Vec) -> real, vOf: real -> real)
    ensures Drawn(Cleared(b), norm, side, dist, vOf)
  {
  }

  /**
   * One sample appended the way the drawer does it keeps the buffers the ribbon of the
   * samples: two vertices, one texture row at the new length, a quad after the first
   * sample, and the outline rebuilt once there are two.
   */
  lemma DrawnAppend(b: Buffers, p: Vec, b': Buffers, norm: Vec -> Vec, side: Vec -> Vec, dist: (Vec, Vec) -> real, vOf: real -> real)
    requires Drawn(b, norm, side, dist, vOf)
    requires b.pts == [] ==> b.pathLength == 0.0
    requires b'.pts == b.pts + [p]
    requires b'.pathLength == if b.pts == [] then b.pathLength else b.pathLength + dist(b.pts[|b.pts| - 1], p)
    requires b'.verts == b.verts + [LeftAt(b'.pts, |b.pts|, norm, side), RightAt(b'.pts, |b.pts|, norm, side)]
    requires b'.uvs == b.uvs + UvRow(vOf(b'.pathLength))
    requires b'.tris == if b.pts == [] then b.tris else b.tris + Quad(2 * |b.pts| + 1)
    requires b'.outline == if b.pts == [] then b.outline else Outline(b'.verts)
    ensures Drawn(b', norm, side, dist, vOf)
  {
    assert Ribboned(b'.pts, b'.verts, b'.tris, b'.outline, norm, side) by {
      RibbonAppend(b.pts, b.verts, b.tris, b.outline, p, norm, side);
    }
    AppendUvs(b.pts, p, dist, vOf);
    assert b'.pathLength == PathLength(b'.pts, dist);
    assert b'.uvs == PathUvs(b'.pts, dist, vOf);
  }

  /** Appending a sample extends the path length by the step to it and the texture coordinates by one row. */
  lemma AppendUvs(pts: seq<Vec>, p: Vec, dist: (Vec, Vec) -> real, vOf: real -> real)
    ensures PathLength(pts + [p], dist) == if pts == [] then 0.0 else PathLength(pts, dist) + dist(pts[|pts| - 1], p)
    ensures PathUvs(pts + [p], dist, vOf) == PathUvs(pts, dist, vOf) + UvRow(vOf(PathLength(pts + [p], dist)))
  {
    var q := pts + [p];
    assert q[..|q| - 1] == pts;
  }

  /**
   * The buffer work of appending a sample: the path length grows by the step from the
   * previous sample, the sample is added, its two vertices are offset by `side` of the
   * normalised step that reached it, its texture row takes v from the length, after the
   * first sample two triangles join its pair to the previous one, and the outline is
   * rebuilt. The buffers stay the ribbon of the samples.
   */
  method AppendSample(b: Buffers, p: Vec, first: bool, norm: Vec -> Vec, side: Vec -> Vec, dist: (Vec, Vec) -> real, vOf: real -> real)
    returns (b': Buffers)
    requires Drawn(b, norm, side, dist, vOf)
    requires first <==> b.pts == []
    requires first ==> b.pathLength == 0.0
    ensures Drawn(b', norm, side, dist, vOf)
    ensures b'.pts == b.pts + [p]
    ensures b'.pathLength == if first then b.pathLength else b.pathLength + dist(b.pts[|b.pts| - 1], p)
    ensures |b'.pts| >= 2 ==> |b'.outline| == |b'.verts| >= 4
    ensures |b'.pts| < 2 ==> b'.outline == []
  {
    var pts, verts, tris, uvs, pathLength := b.pts, b.verts, b.tris, b.uvs, b.pathLength;
    if |pts| > 0 {
      pathLength := pathLength + dist(pts[|pts| - 1], p);
    }
    pts := pts + [p];

    var dir := if |pts| >= 2 then norm(Sub(pts[|pts| - 1], pts[|pts| - 2])) else Right;
    assert dir == DirectionAt(pts, |b.pts|, norm);
    verts := verts + [Add(p, side(dir)), Sub(p, side(dir))];

    var v := vOf(pathLength);
    uvs := uvs + [Vec(0.0, v), Vec(1.0, v)];

    if !first && |verts| >= 4 {
      var i := |verts| - 1;
      assert i == 2 * |b.pts| + 1;
      tris := tris + [i - 3, i - 2, i - 1, i - 1, i - 2, i];
    }

    var outline := RebuildOutline(verts, b.outline);
    b' := Buffers(pts, verts, tris, uvs, outline, pathLength);
    assert Drawn(b', norm, side, dist, vOf) && (|pts| >= 2 ==> |outline| == |verts| >= 4) && (|pts| < 2 ==> outline == []) by {
      OutlineLength(verts, |pts|);
      RibbonOutlineSize(b.pts, b.verts, b.tris, b.outline, norm, side);
      DrawnAppend(b, p, b', norm, side, dist, vOf);
    }
  }

  // ---------------------------------------------------------------- finished strokes

  /** What a finished stroke keeps: at least two vertex pairs, centred on its own origin, its outline built from its vertices. */
  ghost predicate WellFormedBody(s: FinishedStroke)
  {
    |s.verts| >= 4 && Sum(s.verts) == Zero && s.outline == Outline(s.verts)
  }

  /**
   * The body a release makes of the buffers: placed at the centroid of the vertices, with
   * the vertices and the outline moved by it and the triangles and texture coordinates as drawn.
   */
  ghost predicate Kept(s: FinishedStroke, b: Buffers)
  {
    && |b.verts| > 0
    && s.position == Centroid(b.verts)
    && s == FinishedStroke(s.position, Shift(b.verts, s.position), b.tris, b.uvs, Shift(b.outline, s.position))
  }

  /** A body kept from a ribbon of two samples or more is well formed. */
  lemma KeptIsWellFormed(s: FinishedStroke, b: Buffers, norm: Vec -> Vec, side: Vec -> Vec)
    requires Ribboned(b.pts, b.verts, b.tris, b.outline, norm, side) && |b.pts| >= 2
    requires Kept(s, b)
    ensures WellFormedBody(s)
  {
    CentredSumIsZero(b.verts);
    OutlineShift(b.verts, s.position);
  }

  /** The recentring loops of the release: find the centroid, then move every vertex and outline point by it. */
  method Recentre(verts: seq<Vec>, outline: seq<Vec>) returns (center: Vec, vs: seq<Vec>, os: seq<Vec>)
    requires |verts| > 0
    ensures center == Centroid(verts)
    ensures vs == Shift(verts, center) && os == Shift(outline, center)
  {
    center := CentreOf(verts);
    vs := verts;
    for i := 0 to |vs|
      invariant |vs| == |verts|
      invariant forall k :: 0 <= k < i ==> vs[k] == Sub(verts[k], center)
      invariant forall k :: i <= k < |vs| ==> vs[k] == verts[k]
    {
      vs := vs[i := Sub(vs[i], center)];
    }
    os := outline;
    for i := 0 to |os|
      invariant |os| == |outline|
      invariant forall k :: 0 <= k < i ==> os[k] == Sub(outline[k], center)
      invariant forall k :: i <= k < |os| ==> os[k] == outline[k]
    {
      os := os[i := Sub(os[i], center)];
    }
  }

  /**
   * Recentring moves the mesh, not the stroke: each local vertex placed at the body's
   * position is the world vertex it came from.
   */
  lemma RecentringKeepsWorldShape(world: seq<Vec>, k: nat)
    requires k < |world|
    ensures Add(Centroid(world), Shift(world, Centroid(world))[k]) == world[k]
  {
  }

  /** The second release guard never decides: two samples always carry four vertices. */
  lemma VertexGuardRedundant(pts: seq<Vec>, norm: Vec -> Vec, side: Vec -> Vec)
    ensures (|pts| < 2 || |Verts(pts, norm, side)| < 4) <==> |pts| < 2
  {
  }

  // ---------------------------------------------------------------- the drawer

  class DrawManager {
    const thickness: real
    /** The offset of a vertex pair from its sample for a direction: `HalfNormal(thickness)`, fixed at construction. */
    const side: Vec -> Vec
    const minPointDistance: real
    const uvScale: real
    /** The texture coordinate v for the length drawn so far: `LengthV(uvScale)`, fixed at construction. */
    const vOf: real -> real
    const norm: Vec -> Vec
    const dist: (Vec, Vec) -> real

    /** `strokeGO` is a live object: a stroke is in progress. */
    var strokeAlive: bool
    var activeDrawArea: Option<Area>
    var buf: Buffers
    /** The path last pushed to the in-progress stroke's polygon collider; None while it has its default shape. */
    var colliderPath: Option<seq<Vec>>
    /** Finished strokes under the strokes root. */
    var strokes: seq<FinishedStroke>
    /** In-progress strokes left behind under the strokes root by a begin during a stroke. */
    var orphans: nat
    /** Draw areas hidden after a stroke that started in them was released. */
    var fadedAreas: seq<Area>
    /** Calls made to the game manager's NotifyStrokeCompleted. */
    var notifications: nat

    /** The collider holds the outline once there is one, and its default shape before. */
    ghost predicate ColliderInSync()
      reads this
    {
      colliderPath == (if |buf.pts| >= 2 then Some(buf.outline) else None)
    }

    /** The buffers are exactly the ribbon of the accepted samples; a live stroke has at least one. */
    ghost predicate Valid()
      reads this
    {
      Drawn(buf, norm, side, dist, vOf) && (strokeAlive ==> buf.pts != [] && ColliderInSync())
    }

    constructor (thickness: real, minPointDistance: real, uvScale: real, norm: Vec -> Vec, dist: (Vec, Vec) -> real)
      ensures Valid()
      ensures this.thickness == thickness && this.minPointDistance == minPointDistance && this.uvScale == uvScale
      ensures this.norm == norm && this.dist == dist && side == HalfNormal(thickness) && vOf == LengthV(uvScale)
      ensures !strokeAlive && activeDrawArea == None && buf.pts == [] && strokes == [] && orphans == 0
      ensures fadedAreas == [] && notifications == 0
    {
      this.thickness := thickness;
      this.side := HalfNormal(thickness);
      this.minPointDistance := minPointDistance;
      this.uvScale := uvScale;
      this.vOf := LengthV(uvScale);
      this.norm := norm;
      this.dist := dist;
      strokeAlive := false;
      activeDrawArea := None;
      buf := Buffers([], [], [], [], [], 0.0);
      colliderPath := None;
      strokes, orphans, fadedAreas, notifications := [], 0, [], 0;
      DrawnCleared(Buffers([], [], [], [], [], 0.0), norm, HalfNormal(thickness), dist, LengthV(uvScale));
    }

    /** Press: start a stroke when the press lands in a draw area; a stroke already in progress is not rejected but left behind. */
    method TryBeginStroke(world: Vec, hit: Option<Area>)
      requires Valid()
      modifies this`activeDrawArea, this`orphans, this`strokeAlive, this`buf, this`colliderPath
      ensures Valid()
      ensures hit == None ==> unchanged(this)
      ensures hit != None ==> && strokeAlive && activeDrawArea == hit && buf.pts == [world] && buf.pathLength == 0.0
                              && orphans == old(orphans) + (if old(strokeAlive) then 1 else 0)
    {
      if hit == None {
        return;
      }
      activeDrawArea := hit;
      BeginStroke(world);
    }

    /** A new stroke object with empty buffers, path length zero and its first sample. */
    method BeginStroke(start: Vec)
      requires Valid()
      modifies this`orphans, this`strokeAlive, this`buf, this`colliderPath
      ensures Valid()
      ensures strokeAlive && buf.pts == [start] && buf.pathLength == 0.0 && colliderPath == None
      ensures orphans == old(orphans) + (if old(strokeAlive) then 1 else 0)
    {
      if strokeAlive {
        orphans := orphans + 1;
      }
      strokeAlive := true;
      colliderPath := None;
      DrawnCleared(buf.(pathLength := 0.0), norm, side, dist, vOf);
      buf := Cleared(buf.(pathLength := 0.0));
      AddPoint(start, true);
    }

    /** Move: a sample counts only during a stroke with an area, and only inside that same area. */
    method TryContinueStroke(world: Vec, hit: Option<Area>)
      requires Valid()
      modifies this`buf, this`colliderPath
      ensures Valid()
      ensures (!strokeAlive || activeDrawArea == None || hit != activeDrawArea) ==> unchanged(this)
      ensures strokeAlive && activeDrawArea != None && hit == activeDrawArea ==>
                var last := old(buf.pts)[|old(buf.pts)| - 1];
                if dist(last, world) >= minPointDistance then buf.pts == old(buf.pts) + [world] else unchanged(this)
    {
      if !strokeAlive || activeDrawArea == None {
        return;
      }
      if hit != activeDrawArea {
        return;
      }
      ContinueStroke(world);
    }

    /** A sample is appended when there is none yet or it is at least `minPointDistance` from the last one; otherwise nothing changes. */
    method ContinueStroke(p: Vec)
      requires Valid() && strokeAlive
      modifies this`buf, this`colliderPath
      ensures Valid()
      ensures var last := old(buf.pts)[|old(buf.pts)| - 1];
              if dist(last, p) >= minPointDistance
              then buf.pts == old(buf.pts) + [p] && buf.pathLength == old(buf.pathLength) + dist(last, p)
              else unchanged(this)
    {
      if |buf.pts| == 0 || dist(buf.pts[|buf.pts| - 1], p) >= minPointDistance {
        AddPoint(p, false);
      }
    }

    /** Append a sample to the buffers, then push the outline to the collider once it has three points. */
    method AddPoint(p: Vec, first: bool)
      requires Drawn(buf, norm, side, dist, vOf) && ColliderInSync()
      requires first <==> buf.pts == []
      requires first ==> buf.pathLength == 0.0
      modifies this`buf, this`colliderPath
      ensures Drawn(buf, norm, side, dist, vOf) && ColliderInSync()
      ensures buf.pts == old(buf.pts) + [p]
      ensures buf.pathLength == if first then old(buf.pathLength) else old(buf.pathLength) + dist(old(buf.pts)[|old(buf.pts)| - 1], p)
    {
      var b := AppendSample(buf, p, first, norm, side, dist, vOf);
      buf := b;
      if |b.outline| >= 3 {
        colliderPath := Some(b.outline);
      }
    }

    /**
     * Release. Without a stroke only the area is forgotten. Otherwise a stroke with fewer
     * than two samples is destroyed, any other is recentred on its centroid and kept; in both
     * cases the area is hidden, the buffers are emptied and the game manager is notified.
     */
    method EndStroke()
      requires Valid()
      modifies this`activeDrawArea, this`strokeAlive, this`buf, this`colliderPath, this`strokes, this`fadedAreas, this`notifications
      ensures Valid()
      ensures activeDrawArea == None && !strokeAlive
      ensures !old(strokeAlive) ==> && notifications == old(notifications) && strokes == old(strokes)
                                    && fadedAreas == old(fadedAreas) && buf == old(buf)
                                    && colliderPath == old(colliderPath)
      ensures old(strokeAlive) ==>
                && notifications == old(notifications) + 1
                && buf == Cleared(old(buf))
                && fadedAreas == old(fadedAreas) + (if old(activeDrawArea) == None then [] else [old(activeDrawArea).value])
      ensures old(strokeAlive) && |old(buf.pts)| < 2 ==> strokes == old(strokes)
      ensures old(strokeAlive) && |old(buf.pts)| >= 2 ==>
                && |strokes| == |old(strokes)| + 1 && strokes[..|old(strokes)|] == old(strokes)
                && Kept(strokes[|old(strokes)|], old(buf))
                && WellFormedBody(strokes[|old(strokes)|])
    {
      if !strokeAlive {
        activeDrawArea := None;
        return;
      }

      if |buf.pts| < 2 || |buf.verts| < 4 {
        // the stroke object is destroyed; nothing is kept
      } else {
        KeepStroke();
      }

      if activeDrawArea != None {
        fadedAreas := fadedAreas + [activeDrawArea.value];
      }

      strokeAlive := false;
      DrawnCleared(buf, norm, side, dist, vOf);
      buf := Cleared(buf);
      activeDrawArea := None;
      notifications := notifications + 1;
    }

    /**
     * The keeping branch of the release: the vertices and the outline are moved by their
     * centroid, the collider takes the moved outline, and the stroke object, placed at the
     * centroid, joins the kept strokes.
     */
    method KeepStroke()
      requires Valid() && strokeAlive && |buf.pts| >= 2
      modifies this`buf, this`colliderPath, this`strokes
      ensures buf == old(buf).(verts := buf.verts, outline := buf.outline)
      ensures |strokes| == |old(strokes)| + 1 && strokes[..|old(strokes)|] == old(strokes)
      ensures Kept(strokes[|strokes| - 1], old(buf))
      ensures WellFormedBody(strokes[|strokes| - 1])
      ensures colliderPath == Some(buf.outline)
      ensures buf.verts == strokes[|strokes| - 1].verts && buf.outline == strokes[|strokes| - 1].outline
    {
      RibbonOutlineSize(buf.pts, buf.verts, buf.tris, buf.outline, norm, side);
      var center, vs, os := Recentre(buf.verts, buf.outline);
      KeptIsWellFormed(FinishedStroke(center, vs, buf.tris, buf.uvs, os), buf, norm, side);
      buf := buf.(verts := vs, outline := os);
      if |buf.outline| >= 3 {
        colliderPath := Some(buf.outline);
      }
      strokes := strokes + [FinishedStroke(center, buf.verts, buf.tris, buf.uvs, buf.outline)];
    }

    /** Destroy every child of the strokes root, the in-progress stroke included; the buffers are left as they are. */
    method ClearAllStrokes()
      requires Valid()
      modifies this`strokes, this`orphans, this`strokeAlive
      ensures Valid()
      ensures strokes == [] && orphans == 0 && !strokeAlive
    {
      strokes := [];
      orphans := 0;
      strokeAlive := false;
    }
  }
}

/**
 * The older stroke drawer (DrawFall.cs) and the collision handler it gives each kept
 * stroke. The ribbon grows exactly as in the current drawer, except that the texture
 * coordinate v of a sample is its count over ten and there is no path length. On release
 * a kept stroke becomes a body where it was drawn (no recentring) and no one is notified.
 * The draw area under a sample is an input (`hit`); `norm` and `dist` stand for the
 * engine's `normalized` and `Vector2.Distance`, `side` for the half-thickness offset.
 */
module FallDrawing {
  import opened Optional
  import opened Geometry
  import opened Ribbon

  /** A draw area collider, by identity. */
  type Area = nat

  /** The buffers of the stroke in progress: samples, vertices, triangle indices, texture coordinates, outline. */
  datatype Strip = Strip(pts: seq<Vec>, verts: seq<Vec>, tris: seq<int>, uvs: seq<Vec>, outline: seq<Vec>)

  /** A kept stroke: its mesh and outline in world coordinates, the body sitting at the origin. */
  datatype FallenBody = FallenBody(verts: seq<Vec>, tris: seq<int>, uvs: seq<Vec>, outline: seq<Vec>)

  const EmptyStrip := Strip([], [], [], [], [])

  /** The buffers are the ribbon of the samples, with texture rows numbered by sample count. */
  ghost predicate Counted(b: Strip, norm: Vec -> Vec, side: Vec -> Vec)
  {
    Ribboned(b.pts, b.verts, b.tris, b.outline, norm, side) && b.uvs == CountUvs(|b.pts|)
  }

  /** Empty buffers are the ribbon of no samples. */
  lemma CountedEmpty(norm: Vec -> Vec, side: Vec -> Vec)
    ensures Counted(EmptyStrip, norm, side)
  {
  }

  /** One sample appended the way the drawer does it keeps the buffers the ribbon of the samples. */
  lemma CountedAppend(b: Strip, p: Vec, b': Strip, norm: Vec -> Vec, side: Vec -> Vec)
    requires Counted(b, norm, side)
    requires b'.pts == b.pts + [p]
    requires b'.verts == b.verts + [LeftAt(b'.pts, |b.pts|, norm, side), RightAt(b'.pts, |b.pts|, norm, side)]
    requires b'.uvs == b.uvs + UvRow((|b'.pts| as real) / 10.0)
    requires b'.tris == if b.pts == [] then b.tris else b.tris + Quad(2 * |b.pts| + 1)
    requires b'.outline == if b.pts == [] then b.outline else Outline(b'.verts)
    ensures Counted(b', norm, side)
  {
    assert Ribboned(b'.pts, b'.verts, b'.tris, b'.outline, norm, side) by {
      RibbonAppend(b.pts, b.verts, b.tris, b.outline, p, norm, side);
    }
    assert |b'.pts| == |b.pts| + 1;
  }

  /**
   * The buffer work of appending a sample: the sample is added, its two vertices are
   * offset by `side` of the normalised step that reached it, its texture row takes v =
   * count / 10, after the first sample two triangles join its pair to the previous one,
   * and the outline is rebuilt. The buffers stay the ribbon of the samples.
   */
  method AppendSample(b: Strip, p: Vec, first: bool, norm: Vec -> Vec, side: Vec -> Vec) returns (b': Strip)
    requires Counted(b, norm, side)
    requires first ==> b.pts == []
    ensures Counted(b', norm, side)
    ensures b'.pts == b.pts + [p]
    ensures |b'.pts| >= 2 ==> |b'.outline| == |b'.verts| >= 4
    ensures |b'.pts| < 2 ==> b'.outline == []
  {
    var pts, verts, tris, uvs := b.pts, b.verts, b.tris, b.uvs;
    pts := pts + [p];
    var dir := if |pts| >= 2 then norm(Sub(pts[|pts| - 1], pts[|pts| - 2])) else Right;
    assert dir == DirectionAt(pts, |b.pts|, norm);
    verts := verts + [Add(p, side(dir)), Sub(p, side(dir))];

    var v := (|pts| as real) / 10.0;
    uvs := uvs + [Vec(0.0, v), Vec(1.0, v)];

    if !first && |verts| >= 4 {
      var i := |verts| - 1;
      assert i == 2 * |b.pts| + 1;
      tris := tris + [i - 3, i - 2, i - 1, i - 1, i - 2, i];
    }

    var outline := RebuildOutline(verts, b.outline);
    b' := Strip(pts, verts, tris, uvs, outline);
    assert Counted(b', norm, side) && (|pts| >= 2 ==> |outline| == |verts| >= 4) && (|pts| < 2 ==> outline == []) by {
      OutlineLength(verts, |pts|);
      RibbonOutlineSize(b.pts, b.verts, b.tris, b.outline, norm, side);
      CountedAppend(b, p, b', norm, side);
    }
  }

  /**
   * What a kept stroke is: at least two vertex pairs, a quad strip over them, texture
   * rows numbered by pair, and the outline built from the vertices.
   */
  ghost predicate WellFormedFallen(s: FallenBody)
  {
    var n := |s.verts| / 2;
    && |s.verts| >= 4 && |s.verts| == 2 * n
    && s.tris == QuadStrip(n) && |s.tris| == 6 * (n - 1)
    && s.uvs == CountUvs(n)
    && s.outline == Outline(s.verts)
  }

  /** The body a release makes of ribbon buffers with two samples or more is well formed, and its outline has a point per vertex. */
  lemma FallenIsWellFormed(b: Strip, norm: Vec -> Vec, side: Vec -> Vec)
    requires Counted(b, norm, side) && |b.pts| >= 2
    ensures WellFormedFallen(FallenBody(b.verts, b.tris, b.uvs, b.outline))
    ensures |b.outline| == |b.verts| == 2 * |b.pts|
  {
    QuadStripLength(|b.pts|);
    RibbonOutlineSize(b.pts, b.verts, b.tris, b.outline, norm, side);
    assert |b.verts| / 2 == |b.pts|;
  }

  // ---------------------------------------------------------------- the drawer

  class DrawFall {
    const thickness: real
    /** The offset of a vertex pair from its sample for a direction: `HalfNormal(thickness)`, fixed at construction. */
    const side: Vec -> Vec
    const minPointDistance: real
    /** Whether a released area fades out (true) or is switched off at once. */
    const fadeOutArea: bool
    const norm: Vec -> Vec
    const dist: (Vec, Vec) -> real

    /** `strokeGO` is a live object: a stroke is in progress. */
    var strokeAlive: bool
    var activeDrawArea: Option<Area>
    var buf: Strip
    /** The path last pushed to the in-progress stroke's polygon collider; None while it has its default shape. */
    var colliderPath: Option<seq<Vec>>
    /** Kept strokes, each a falling body with a collision handler. */
    var bodies: seq<FallenBody>
    /** In-progress strokes left in the scene, without a body, by a begin during a stroke. */
    var orphans: nat
    /** Released areas, fading out or switched off at once. */
    var fadingAreas: seq<Area>
    var disabledAreas: seq<Area>

    /** The collider holds the outline once there is one, and its default shape before. */
    ghost predicate ColliderInSync()
      reads this
    {
      colliderPath == (if |buf.pts| >= 2 then Some(buf.outline) else None)
    }

    /** The buffers are exactly the ribbon of the accepted samples; a live stroke has at least one. */
    ghost predicate Valid()
      reads this
    {
      Counted(buf, norm, side) && (strokeAlive ==> buf.pts != [] && ColliderInSync())
    }

    constructor (thickness: real, minPointDistance: real, fadeOutArea: bool, norm: Vec -> Vec, dist: (Vec, Vec) -> real)
      ensures Valid()
      ensures this.thickness == thickness && this.minPointDistance == minPointDistance && this.fadeOutArea == fadeOutArea
      ensures this.norm == norm && this.dist == dist && side == HalfNormal(thickness)
      ensures !strokeAlive && activeDrawArea == None && buf == EmptyStrip && colliderPath == None
      ensures bodies == [] && orphans == 0 && fadingAreas == [] && disabledAreas == []
    {
      this.thickness := thickness;
      this.side := HalfNormal(thickness);
      this.minPointDistance := minPointDistance;
      this.fadeOutArea := fadeOutArea;
      this.norm := norm;
      this.dist := dist;
      strokeAlive := false;
      activeDrawArea := None;
      buf := EmptyStrip;
      colliderPath := None;
      bodies, orphans, fadingAreas, disabledAreas := [], 0, [], [];
    }

    /** Press: start a stroke when the press lands in a draw area; a stroke already in progress is left behind. */
    method TryBeginStroke(world: Vec, hit: Option<Area>)
      requires Valid()
      modifies this`activeDrawArea, this`orphans, this`strokeAlive, this`buf, this`colliderPath
      ensures Valid()
      ensures hit == None ==> unchanged(this)
      ensures hit != None ==> && strokeAlive && activeDrawArea == hit && buf.pts == [world] && colliderPath == None
                              && orphans == old(orphans) + (if old(strokeAlive) then 1 else 0)
    {
      if hit == None {
        return;
      }
      activeDrawArea := hit;
      BeginStroke(world);
    }

    /** A new stroke object with empty buffers and its first sample. */
    method BeginStroke(start: Vec)
      modifies this`orphans, this`strokeAlive, this`buf, this`colliderPath
      ensures Valid()
      ensures strokeAlive && buf.pts == [start] && colliderPath == None
      ensures orphans == old(orphans) + (if old(strokeAlive) then 1 else 0)
    {
      if strokeAlive {
        orphans := orphans + 1;
      }
      strokeAlive := true;
      colliderPath := None;
      CountedEmpty(norm, side);
      buf := EmptyStrip;
      AddPoint(start, true);
    }

    /** Move: a sample counts only during a stroke with an area, and only inside that same area. */
    method TryContinueStroke(world: Vec, hit: Option<Area>)
      requires Valid()
      modifies this`buf, this`colliderPath
      ensures Valid()
      ensures (!strokeAlive || activeDrawArea == None || hit != activeDrawArea) ==> unchanged(this)
      ensures strokeAlive && activeDrawArea != None && hit == activeDrawArea ==>
                var last := old(buf.pts)[|old(buf.pts)| - 1];
                if dist(last, world) >= minPointDistance then buf.pts == old(buf.pts) + [world] else unchanged(this)
    {
      if !strokeAlive || activeDrawArea == None {
        return;
      }
      if hit != activeDrawArea {
        return;
      }
      ContinueStroke(world);
    }

    /** A sample is appended when there is none yet or it is at least `minPointDistance` from the last one; otherwise nothing changes. */
    method ContinueStroke(p: Vec)
      requires Valid() && strokeAlive
      modifies this`buf, this`colliderPath
      ensures Valid()
      ensures var last := old(buf.pts)[|old(buf.pts)| - 1];
              if dist(last, p) >= minPointDistance then buf.pts == old(buf.pts) + [p] else unchanged(this)
    {
      if |buf.pts| == 0 || dist(buf.pts[|buf.pts| - 1], p) >= minPointDistance {
        AddPoint(p, false);
      }
    }

    /** Append a sample to the buffers, then push the outline to the collider once it has three points. */
    method AddPoint(p: Vec, first: bool)
      requires Counted(buf, norm, side) && ColliderInSync()
      requires first ==> buf.pts == []
      modifies this`buf, this`colliderPath
      ensures Counted(buf, norm, side) && ColliderInSync()
      ensures buf.pts == old(buf.pts) + [p]
    {
      var b := AppendSample(buf, p, first, norm, side);
      buf := b;
      if |b.outline| >= 3 {
        colliderPath := Some(b.outline);
      }
    }

    /**
     * Release. Without a stroke only the area is forgotten. Otherwise a stroke with fewer
     * than two samples is destroyed and any other is kept as a body where it was drawn;
     * in both cases the area is hidden and every buffer is emptied. Nobody is notified.
     */
    method EndStroke()
      requires Valid()
      modifies this`activeDrawArea, this`strokeAlive, this`buf, this`colliderPath, this`bodies, this`fadingAreas, this`disabledAreas
      ensures Valid()
      ensures activeDrawArea == None && !strokeAlive
      ensures !old(strokeAlive) ==> && bodies == old(bodies) && buf == old(buf)
                                    && fadingAreas == old(fadingAreas) && disabledAreas == old(disabledAreas)
      ensures old(strokeAlive) ==>
                && buf == EmptyStrip && colliderPath == None
                && var hidden := if old(activeDrawArea) == None then [] else [old(activeDrawArea).value];
                   && fadingAreas == old(fadingAreas) + (if fadeOutArea then hidden else [])
                   && disabledAreas == old(disabledAreas) + (if fadeOutArea then [] else hidden)
      ensures old(strokeAlive) && |old(buf.pts)| < 2 ==> bodies == old(bodies)
      ensures old(strokeAlive) && |old(buf.pts)| >= 2 ==>
                && bodies == old(bodies) + [FallenBody(old(buf.verts), old(buf.tris), old(buf.uvs), old(buf.outline))]
                && WellFormedFallen(bodies[|bodies| - 1])
    {
      if !strokeAlive {
        activeDrawArea := None;
        return;
      }

      if |buf.pts| < 2 || |buf.verts| < 4 {
        // the stroke object is destroyed; nothing is kept
      } else {
        FallenIsWellFormed(buf, norm, side);
        bodies := bodies + [FallenBody(buf.verts, buf.tris, buf.uvs, buf.outline)];
      }

      if activeDrawArea != None {
        if fadeOutArea {
          fadingAreas := fadingAreas + [activeDrawArea.value];
        } else {
          disabledAreas := disabledAreas + [activeDrawArea.value];
        }
      }

      strokeAlive := false;
      colliderPath := None;
      buf := EmptyStrip;
      activeDrawArea := None;
    }
  }

  // ---------------------------------------------------------------- vanishing on contact

  /** A layer is a vanish layer when some listed name maps to it; a missing list names no layer. */
  ghost predicate InVanishLayers(vanishLayers: Option<seq<string>>, nameToLayer: string -> int, layer: int)
  {
    vanishLayers.Some? && exists i :: 0 <= i < |vanishLayers.value| && layer == nameToLayer(vanishLayers.value[i])
  }

  /**
   * The collision handler of the kept strokes. Every handler gets the same settings from
   * the drawer and they all share one static set of scheduled targets, so one object
   * stands for all of them. A target in a vanish layer is scheduled once: its id joins
   * the set and a delayed vanish starts, which ends either when the target disappears
   * first or when the delay is over, and in both cases takes the id out of the set.
   * `nameToLayer` stands for the engine's layer lookup by name.
   */
  class StrokeCollisionHandler {
    const vanishLayers: Option<seq<string>>
    const nameToLayer: string -> int

    /** The object switched on at a first contact: None when there is none, else whether it is active. */
    var effect: Option<bool>
    /** Ids of the targets with a vanish under way. */
    var scheduled: set<int>
    /** The delayed vanishes running, by target id. */
    var pending: multiset<int>
    /** Targets this handler switched off. */
    var vanished: set<int>

    /** Exactly one delayed vanish runs for each scheduled target and none for any other. */
    ghost predicate Valid()
      reads this
    {
      pending == multiset(scheduled)
    }

    constructor (vanishLayers: Option<seq<string>>, nameToLayer: string -> int, effect: Option<bool>)
      ensures Valid()
      ensures this.vanishLayers == vanishLayers && this.nameToLayer == nameToLayer && this.effect == effect
      ensures scheduled == {} && pending == multiset{} && vanished == {}
    {
      this.vanishLayers := vanishLayers;
      this.nameToLayer := nameToLayer;
      this.effect := effect;
      scheduled, pending, vanished := {}, multiset{}, {};
    }

    /** The scan of the vanish list for a layer. */
    method IsInVanishLayers(layer: int) returns (r: bool)
      ensures r <==> InVanishLayers(vanishLayers, nameToLayer, layer)
      ensures vanishLayers == None ==> !r
    {
      if vanishLayers == None {
        return false;
      }
      var names := vanishLayers.value;
      for i := 0 to |names|
        invariant forall k :: 0 <= k < i ==> layer != nameToLayer(names[k])
      {
        if layer == nameToLayer(names[i]) {
          return true;
        }
      }
      return false;
    }

    /**
     * Contact with a target: ignored outside the vanish layers and for a target already
     * scheduled; otherwise the target is scheduled, the effect object is switched on and
     * its delayed vanish starts.
     */
    method OnCollisionEnter2D(layer: int, id: int)
      requires Valid()
      modifies this`scheduled, this`pending, this`effect
      ensures Valid()
      ensures pending[id] == if InVanishLayers(vanishLayers, nameToLayer, layer) then 1 else old(pending)[id]
      ensures !InVanishLayers(vanishLayers, nameToLayer, layer) || id in old(scheduled) ==> unchanged(this)
      ensures InVanishLayers(vanishLayers, nameToLayer, layer) && id !in old(scheduled) ==>
                && scheduled == old(scheduled) + {id}
                && pending == old(pending) + multiset{id}
                && effect == (if old(effect) == None then None else Some(true))
    {
      var inLayers := IsInVanishLayers(layer);
      if !inLayers {
        return;
      }
      if id in scheduled {
        return;
      }
      scheduled := scheduled + {id};
      if effect != None && !effect.value {
        effect := Some(true);
      }
      pending := pending + multiset{id};
    }

    /** A running vanish finds its target gone before the delay is over: it stops and unschedules the target. */
    method TargetGone(id: int)
      requires Valid() && id in pending
      modifies this`scheduled, this`pending
      ensures Valid()
      ensures scheduled == old(scheduled) - {id} && pending == old(pending) - multiset{id}
    {
      scheduled := scheduled - {id};
      pending := pending - multiset{id};
    }

    /**
     * A running vanish reaches the end of its delay: a target that still exists and is
     * active is switched off, and the target is unscheduled either way.
     */
    method DelayOver(id: int, targetExists: bool, targetActive: bool)
      requires Valid() && id in pending
      modifies this`scheduled, this`pending, this`vanished
      ensures Valid()
      ensures scheduled == old(scheduled) - {id} && pending == old(pending) - multiset{id}
      ensures vanished == old(vanished) + (if targetExists && targetActive then {id} else {})
    {
      if targetExists && targetActive {
        vanished := vanished + {id};
      }
      scheduled := scheduled - {id};
      pending := pending - multiset{id};
    }
  }
}

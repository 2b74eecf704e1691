/**
 * The one-shot attachment of a finished stroke to what it lands on
 * (_GamePlay/StrokeAttachToLift.cs). The stroke is configured with layer names; the
 * first collision or trigger with an object on one of those layers attaches it, either
 * by a hinge at the centre of a gear or, for anything else, by hanging the stroke under
 * the other object's transform. Layer lookup and the transforms' world-to-local maps
 * are inputs.
 */
module LiftAttach {
  import opened Optional
  import opened Geometry
  import opened Physics

  /** A transform, by identity. */
  type TransformId = nat

  /** The gear found above the other object: its rigidbody (None when it has none), that body's world centre of mass and its transform's world-to-local map. */
  datatype GearHit = GearHit(body: Option<BodyId>, centre: Vec, toLocal: Vec -> Vec)

  /** What the stroke touched: the transform, its object's layer and the gear above it, if any. */
  datatype Contact = Contact(transform: TransformId, layer: int, gear: Option<GearHit>)

  /** The layer ids of the non-empty names that name a layer (a null list names none). */
  ghost function LayersOf(names: Option<seq<string>>, nameToLayer: string -> int): (ls: set<int>)
    ensures forall l :: l in ls ==> l >= 0
    ensures names == None ==> ls == {}
  {
    if names == None then {}
    else
      var ns := names.value;
      set i | 0 <= i < |ns| && ns[i] != "" && nameToLayer(ns[i]) >= 0 :: nameToLayer(ns[i])
  }

  class StrokeAttach {
    /** The stroke's own rigidbody, None when its object has none. */
    const line: Option<Body>
    /** The stroke's world-to-local map. */
    const toLocal: Vec -> Vec

    var targetLayers: set<int>
    var attached: bool
    /** The transform the stroke hangs under, None at the root. */
    var parent: Option<TransformId>

    /** Only layer ids (never negative) are targets. */
    ghost predicate Valid()
      reads this
    {
      forall l :: l in targetLayers ==> l >= 0
    }

    constructor (line: Option<Body>, toLocal: Vec -> Vec, parent: Option<TransformId>)
      ensures Valid()
      ensures this.line == line && this.parent == parent
      ensures targetLayers == {} && !attached
    {
      this.line := line;
      this.toLocal := toLocal;
      this.parent := parent;
      targetLayers := {};
      attached := false;
    }

    /** Replace the targets by the layers of the given names: empty names and unknown layers are skipped, a null list leaves no target. */
    method Init(names: Option<seq<string>>, nameToLayer: string -> int)
      modifies this`targetLayers
      ensures Valid()
      ensures targetLayers == LayersOf(names, nameToLayer)
    {
      targetLayers := {};
      if names == None {
        return;
      }
      var ns := names.value;
      for i := 0 to |ns|
        invariant targetLayers == set k | 0 <= k < i && ns[k] != "" && nameToLayer(ns[k]) >= 0 :: nameToLayer(ns[k])
      {
        if ns[i] == "" {
          continue;
        }
        var id := nameToLayer(ns[i]);
        if id >= 0 {
          targetLayers := targetLayers + {id};
        }
      }
    }

    /**
     * The stroke touched `other` (a collision or a trigger; None when it is gone). Nothing
     * happens once attached, without a target, or off the target layers. A gear with a
     * rigidbody, when the stroke has one too, gets a hinge whose two anchors are the
     * gear's centre of mass in each body's frame, and the stroke keeps its parent;
     * anything else (a gear without rigidbody included) becomes the stroke's parent.
     * Either way the stroke is attached from then on.
     */
    method TryAttach(other: Option<Contact>) returns (hinge: Option<Joint>)
      requires Valid()
      modifies this`attached, this`parent, if line == None then {} else {line.value}
      ensures Valid()
      ensures old(attached) || other == None || other.value.layer !in targetLayers ==>
                && attached == old(attached) && parent == old(parent) && hinge == None
                && (line != None ==> line.value.joints == old(line.value.joints))
      ensures !old(attached) && other != None && other.value.layer in targetLayers ==>
                var c := other.value;
                var gearBranch := c.gear != None && c.gear.value.body != None && line != None;
                && attached
                && (gearBranch ==>
                      && hinge != None && fresh(hinge.value) && hinge.value.alive
                      && hinge.value.kind == Hinge
                      && hinge.value.connectedBody == c.gear.value.body.value
                      && hinge.value.anchor == toLocal(c.gear.value.centre)
                      && hinge.value.connectedAnchor == c.gear.value.toLocal(c.gear.value.centre)
                      && hinge.value.breakForce == None && hinge.value.breakTorque == None
                      && line.value.joints == old(line.value.joints) + [hinge.value]
                      && parent == old(parent))
                && (!gearBranch ==>
                      && hinge == None && parent == Some(c.transform)
                      && (line != None ==> line.value.joints == old(line.value.joints)))
      ensures line != None ==> line.value.gravityScale == old(line.value.gravityScale) && line.value.impulses == old(line.value.impulses)
    {
      hinge := None;
      if attached || other == None || |targetLayers| == 0 {
        return;
      }
      var c := other.value;
      if c.layer !in targetLayers {
        return;
      }

      if c.gear != None {
        var g := c.gear.value;
        if line != None && g.body != None {
          var center := g.centre;
          var h := new Joint(Hinge, g.body.value, toLocal(center), g.toLocal(center), None, None);
          line.value.joints := line.value.joints + [h];
          hinge := Some(h);
          attached := true;
          return;
        }
      }

      parent := Some(c.transform);
      attached := true;
    }
  }
}

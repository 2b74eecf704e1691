/**
 * The pin registry of a gear (Gears.cs; the copy under _GamePlay adds only an automatic
 * rotation in the physics step, which is not part of this model). A stroke touching the
 * gear is pinned with a hinge at the gear centre and, unless the stroke's polygon covers
 * that centre, a tether from the contact point; the gear remembers the joints it made,
 * forgets one when it breaks and destroys them all when it is disabled.
 */
module GearPins {
  import opened Optional
  import opened Geometry
  import opened Physics
  import opened Lists

  // ---------------------------------------------------------------- the joint list

  /** A second break of the same joint changes nothing. */
  lemma RemoveTwice<T>(s: seq<T>, x: T)
    requires Distinct(s)
    ensures RemoveFirst(RemoveFirst(s, x), x) == RemoveFirst(s, x)
  {
    RemoveFirstDistinct(s, x);
  }

  /** How many joints a gear can hold: a pin is refused once the count reaches `maxPins`, and one pin adds at most two joints. */
  function Cap(maxPins: int): (c: nat)
    ensures maxPins <= 0 ==> c == 0
    ensures maxPins > 0 ==> c == maxPins + 1
  {
    if maxPins <= 0 then 0 else maxPins + 1
  }

  /** The break threshold a joint gets from a configured value: only a positive one is set. */
  function Threshold(configured: real): (t: Option<real>)
    ensures t != None <==> configured > 0.0
    ensures t != None ==> t.value == configured
  {
    if configured > 0.0 then Some(configured) else None
  }

  /** Unity's Mathf.Max on two values. */
  function Max(a: real, b: real): (m: real)
    ensures m >= a && m >= b && (m == a || m == b)
  {
    if a >= b then a else b
  }

  // ---------------------------------------------------------------- the gear

  class Gears {
    /** The gear's own rigidbody. */
    const body: BodyId
    /** The layer strokes are on; negative when no such layer exists, in which case any layer is accepted. */
    const lineLayer: int
    const maxPins: int
    const breakForce: real
    const breakTorque: real
    const downImpulse: real

    /** The joints this gear created and still remembers, in creation order. */
    var activeJoints: seq<Joint>

    /** The registry never repeats a joint, holds only joints to this gear, and stays within the cap. */
    ghost predicate Valid()
      reads this
    {
      && |activeJoints| <= Cap(maxPins)
      && Distinct(activeJoints)
      && forall j :: j in activeJoints ==> j.connectedBody == body
    }

    constructor (body: BodyId, lineLayer: int, maxPins: int, breakForce: real, breakTorque: real, downImpulse: real)
      ensures Valid()
      ensures this.body == body && this.lineLayer == lineLayer && this.maxPins == maxPins
      ensures this.breakForce == breakForce && this.breakTorque == breakTorque && this.downImpulse == downImpulse
      ensures activeJoints == []
    {
      this.body := body;
      this.lineLayer := lineLayer;
      this.maxPins := maxPins;
      this.breakForce := breakForce;
      this.breakTorque := breakTorque;
      this.downImpulse := downImpulse;
      activeJoints := [];
    }

    /** The scan of the stroke's joints for a live one connected to this gear. */
    method AlreadyPinned(line: Body) returns (r: bool)
      ensures r <==> JoinedTo(line, body)
    {
      var joints := line.joints;
      for i := 0 to |joints|
        invariant forall k :: 0 <= k < i ==> !(joints[k].alive && joints[k].connectedBody == body)
      {
        if joints[i].alive && joints[i].connectedBody == body {
          return true;
        }
      }
      return false;
    }

    /**
     * A contact with a body on `layer`. Refused, with no effect, for a layer other than the
     * stroke layer (when that exists), when the registry is full, for a contact without a
     * rigidbody, and for a stroke already pinned to this gear. Otherwise the stroke falls
     * with gravity scale at least 1 and gets a hinge whose two anchors are the local
     * images of the gear centre and, when its polygon does not cover the centre, a tether
     * from the contact point at most the contact's distance from the centre; both are
     * registered, and the stroke gets a small downward impulse. `lineToLocal` and
     * `gearToLocal` are the two transforms' world-to-local maps, `dist` the engine's distance.
     */
    method TryPin(layer: int, line: Option<Body>, contact: Vec, centre: Vec, passesCenter: bool,
                  lineToLocal: Vec -> Vec, gearToLocal: Vec -> Vec, dist: (Vec, Vec) -> real)
      returns (hinge: Option<Joint>, tether: Option<Joint>)
      requires Valid()
      modifies this`activeJoints, if line == None then {} else {line.value}
      ensures Valid()
      ensures var refused := || (lineLayer >= 0 && layer != lineLayer)
                             || |old(activeJoints)| >= maxPins
                             || line == None
                             || old(JoinedTo(line.value, body));
              && (refused ==> hinge == None && tether == None && unchanged(this) && (line != None ==> unchanged(line.value)))
              && (!refused ==> hinge != None && (tether != None <==> !passesCenter))
      ensures hinge != None ==>
                && line != None
                && fresh(hinge.value) && hinge.value.alive
                && hinge.value.kind == Hinge && hinge.value.connectedBody == body
                && hinge.value.anchor == lineToLocal(centre) && hinge.value.connectedAnchor == gearToLocal(centre)
                && hinge.value.breakForce == Threshold(breakForce) && hinge.value.breakTorque == Threshold(breakTorque)
                && var added := [hinge.value] + (if tether == None then [] else [tether.value]);
                   && activeJoints == old(activeJoints) + added
                   && line.value.joints == old(line.value.joints) + added
                   && line.value.gravityScale == Max(1.0, old(line.value.gravityScale))
                   && line.value.impulses == old(line.value.impulses) + [Scale(Down, downImpulse)]
                   && JoinedTo(line.value, body)
      ensures tether != None ==>
                && fresh(tether.value) && tether.value.alive
                && tether.value.kind == Tether(dist(contact, centre), true) && tether.value.connectedBody == body
                && tether.value.anchor == lineToLocal(contact) && tether.value.connectedAnchor == gearToLocal(centre)
                && tether.value.breakForce == Threshold(breakForce) && tether.value.breakTorque == Threshold(breakTorque)
    {
      hinge, tether := None, None;
      if lineLayer >= 0 && layer != lineLayer {
        return;
      }
      if |activeJoints| >= maxPins {
        return;
      }
      if line == None {
        return;
      }
      var lineRB := line.value;
      var pinned := AlreadyPinned(lineRB);
      if pinned {
        return;
      }

      lineRB.gravityScale := Max(1.0, lineRB.gravityScale);

      var h := new Joint(Hinge, body, lineToLocal(centre), gearToLocal(centre), Threshold(breakForce), Threshold(breakTorque));
      var added := [h];
      if !passesCenter {
        var t := new Joint(Tether(dist(contact, centre), true), body, lineToLocal(contact), gearToLocal(centre),
                           Threshold(breakForce), Threshold(breakTorque));
        tether := Some(t);
        added := added + [t];
      }
      hinge := Some(h);
      activeJoints := activeJoints + added;
      lineRB.joints := lineRB.joints + added;
      lineRB.impulses := lineRB.impulses + [Scale(Down, downImpulse)];
      assert lineRB.joints[|lineRB.joints| - |added|] == h;
    }

    /** A joint broke: the registry forgets it (its first occurrence; a joint it does not hold changes nothing). */
    method OnJointBreak2D(broken: Joint)
      requires Valid()
      modifies this`activeJoints
      ensures Valid()
      ensures activeJoints == RemoveFirst(old(activeJoints), broken)
      ensures broken !in activeJoints
    {
      RemoveFirstDistinct(activeJoints, broken);
      activeJoints := RemoveFirst(activeJoints, broken);
    }

    /** Disabled: every remembered joint still alive is destroyed and the registry is emptied. */
    method OnDisable()
      requires Valid()
      modifies this`activeJoints, set j | j in activeJoints
      ensures Valid()
      ensures activeJoints == []
      ensures forall j :: j in old(activeJoints) ==> !j.alive
    {
      var joints := activeJoints;
      for i := 0 to |joints|
        invariant forall k :: 0 <= k < i ==> !joints[k].alive
        invariant forall k :: i <= k < |joints| ==> joints[k].alive == old(joints[k].alive)
      {
        if joints[i].alive {
          joints[i].alive := false;
        }
      }
      activeJoints := [];
    }
  }
}

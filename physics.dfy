/**
 * The few pieces of the 2D physics engine that the gear pins and the stroke attachment
 * create and inspect: rigidbodies by identity, and the joints added to a body's object.
 * A transform's `InverseTransformPoint` is an input function from world to local points.
 */
module Physics {
  import opened Optional
  import opened Geometry

  /** A rigidbody, by identity. */
  type BodyId = nat

  /** A hinge turns about its anchor; a tether keeps its anchors at most (or exactly) `distance` apart. */
  datatype JointKind = Hinge | Tether(distance: real, maxDistanceOnly: bool)

  /**
   * A joint component on a body's object, connected to another body. Its anchors are in
   * the local frames of its own body and of the connected one. A break threshold left
   * unset (None) is the engine's default: it never breaks. `alive` is false once the
   * component is destroyed, which is when the engine's null test fails on it.
   */
  class Joint {
    const kind: JointKind
    const connectedBody: BodyId
    const anchor: Vec
    const connectedAnchor: Vec
    const breakForce: Option<real>
    const breakTorque: Option<real>
    var alive: bool

    constructor (kind: JointKind, connectedBody: BodyId, anchor: Vec, connectedAnchor: Vec,
                 breakForce: Option<real>, breakTorque: Option<real>)
      ensures this.kind == kind && this.connectedBody == connectedBody
      ensures this.anchor == anchor && this.connectedAnchor == connectedAnchor
      ensures this.breakForce == breakForce && this.breakTorque == breakTorque
      ensures alive
    {
      this.kind := kind;
      this.connectedBody := connectedBody;
      this.anchor := anchor;
      this.connectedAnchor := connectedAnchor;
      this.breakForce := breakForce;
      this.breakTorque := breakTorque;
      alive := true;
    }
  }

  /**
   * A stroke's rigidbody with what the pins touch: its gravity scale, the joints on its
   * object (destroyed ones included, which the engine's null test skips), and the
   * impulses applied to it.
   */
  class Body {
    const id: BodyId
    var gravityScale: real
    var joints: seq<Joint>
    var impulses: seq<Vec>

    constructor (id: BodyId, gravityScale: real)
      ensures this.id == id && this.gravityScale == gravityScale && joints == [] && impulses == []
    {
      this.id := id;
      this.gravityScale := gravityScale;
      joints := [];
      impulses := [];
    }
  }

  /** Some live joint on the body's object is connected to `target`. */
  ghost predicate JoinedTo(b: Body, target: BodyId)
    reads b, b.joints
  {
    exists k :: 0 <= k < |b.joints| && b.joints[k].alive && b.joints[k].connectedBody == target
  }
}

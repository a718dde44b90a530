/**
 * Collision boxes: a box given by three offsets from its entity's location. Whether it collides
 * is a flag, derived from the offsets at construction and settable afterwards; the intersection
 * test itself is a stub that reports the flag.
 */
module Collision {
  import opened Vectors
  import opened Entities

  /** The derived solidity rule: a box is solid only when it extends positively along every axis. */
  function DerivedSolidity(xoffset: real, yoffset: real, zoffset: real): (solid: bool)
    ensures solid <==> xoffset > 0.0 && yoffset > 0.0 && zoffset > 0.0
  {
    !(xoffset <= 0.0 || yoffset <= 0.0 || zoffset <= 0.0)
  }

  class CollisionBox {
    const box: Vector3
    const parentEntity: Entity?
    var solid: bool

    /** A box of the given offsets for the given entity; solid exactly when all three offsets are positive. */
    constructor (entity: Entity?, xoffset: real, yoffset: real, zoffset: real)
      ensures parentEntity == entity
      ensures fresh(box) && box.Value() == Vec3(xoffset, yoffset, zoffset)
      ensures solid <==> box.x > 0.0 && box.y > 0.0 && box.z > 0.0
    {
      parentEntity := entity;
      box := new Vector3(0.0, 0.0, 0.0);
      new;
      box.Set(xoffset, yoffset, zoffset);
      solid := DerivedSolidity(xoffset, yoffset, zoffset);
    }

    /** The collision test, not implemented by the engine: it reports the flag whatever the other box is, null included. */
    function IsColliding(other: CollisionBox?): (r: bool)
      reads this
      ensures r == solid
    {
      solid
    }

    /** Overrides the flag; the offsets and the entity stay as they were. */
    method SetSolid(isSolid: bool)
      modifies this`solid
      ensures solid == isSolid
    {
      solid := isSolid;
    }
  }
}

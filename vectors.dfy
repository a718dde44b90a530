/** Three-component vectors: a value type for reasoning and a mutable class that is shared by reference. */
module Vectors {

  /** The components of a vector at one moment. */
  datatype Vec3 = Vec3(x: real, y: real, z: real)

  /** Componentwise sum. */
  function Plus(a: Vec3, b: Vec3): Vec3 {
    Vec3(a.x + b.x, a.y + b.y, a.z + b.z)
  }

  /** Every component multiplied by k. */
  function Scaled(a: Vec3, k: real): Vec3 {
    Vec3(a.x * k, a.y * k, a.z * k)
  }

  /**
   * A mutable vector with public components, as the engine's vector objects are:
   * several owners may hold the same object, and a write through one is seen by all.
   */
  class Vector3 {
    var x: real
    var y: real
    var z: real

    constructor (x: real, y: real, z: real)
      ensures Value() == Vec3(x, y, z)
    {
      this.x, this.y, this.z := x, y, z;
    }

    /** The current components. */
    function Value(): Vec3
      reads this
    {
      Vec3(x, y, z)
    }

    /** Overwrites all three components. */
    method Set(x: real, y: real, z: real)
      modifies this
      ensures Value() == Vec3(x, y, z)
    {
      this.x, this.y, this.z := x, y, z;
    }
  }
}

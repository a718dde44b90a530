/**
 * Entities: anything with a location in a world. An entity holds a location and an orientation
 * (pitch, yaw, roll) as shared vector objects, a size scale, a non-negative speed, an optional
 * descriptor and a world reference, and one dirty flag that the renderer clears after it has
 * picked the changes up.
 *
 * The flag is set by every mutator of location, orientation, scale or descriptor; setting the
 * speed or the world leaves it alone; only the reset clears it.
 */
module Entities {
  import opened Wrappers
  import opened Vectors
  import opened Descriptors
  import opened Worlds

  /** Absolute value, as the speed setter applies it. */
  function Abs(r: real): (a: real)
    ensures a >= 0.0
    ensures a == r || a == -r
  {
    if r < 0.0 then -r else r
  }

  /** Everything an entity holds at one moment: the references it holds and the values behind them. */
  datatype EntityState = EntityState(
    changed: bool,
    desc: Option<EntityDescriptor>,
    location: Vector3,
    locationValue: Vec3,
    orientation: Vector3,
    orientationValue: Vec3,
    sizeScale: real,
    speed: real,
    world: World?)

  class Entity {
    var hasChanged: bool
    var desc: Option<EntityDescriptor>
    var location: Vector3
    var orientation: Vector3
    var sizeScale: real
    var speed: real
    var world: World?

    /** The invariant every constructor and mutator keeps: speed is never negative. */
    ghost predicate Valid()
      reads this
    {
      speed >= 0.0
    }

    /** The entity's whole observable state. */
    function State(): EntityState
      reads this, location, orientation
    {
      EntityState(hasChanged, desc, location, location.Value(), orientation, orientation.Value(), sizeScale, speed, world)
    }

    /**
     * A new entity at the caller's location object (kept, not copied), facing (0, 0, 0) through a
     * fresh orientation object, at rest, marked changed, and scaled by the descriptor's default
     * scale when there is a descriptor and by 1 otherwise.
     */
    constructor (location: Vector3, world: World?, descriptor: Option<EntityDescriptor>)
      ensures Valid()
      ensures hasChanged
      ensures this.location == location && this.world == world && desc == descriptor
      ensures fresh(orientation) && orientation.Value() == Vec3(0.0, 0.0, 0.0)
      ensures speed == 0.0
      ensures sizeScale == if descriptor.Some? then descriptor.value.defScale else 1.0
      ensures location.Value() == old(location.Value())
    {
      hasChanged := true;
      desc := descriptor;
      this.location := location;
      orientation := new Vector3(0.0, 0.0, 0.0);
      sizeScale := 1.0;
      speed := 0.0;
      this.world := world;
      new;
      if desc.Some? {
        sizeScale := desc.value.defScale;
      }
    }

    /** Clears the dirty flag and nothing else. */
    method ResetChangeTracker()
      requires Valid()
      modifies this
      ensures Valid()
      ensures State() == old(State()).(changed := false)
    {
      hasChanged := false;
    }

    /** Replaces the descriptor and takes over its default scale; marks the entity changed. */
    method SetEntityDescriptor(descriptor: EntityDescriptor)
      requires Valid()
      modifies this
      ensures Valid()
      ensures State() == old(State()).(changed := true, desc := Some(descriptor), sizeScale := descriptor.defScale)
    {
      desc := Some(descriptor);
      SetSizeScale(desc.value.defScale);
    }

    /** Makes the given object the entity's location; marks the entity changed. */
    method SetLocation(newLocation: Vector3)
      requires Valid()
      modifies this
      ensures Valid()
      ensures State() == old(State()).(changed := true, location := newLocation, locationValue := newLocation.Value())
    {
      hasChanged := true;
      location := newLocation;
    }

    /**
     * Overwrites the components of the current location object; marks the entity changed. When
     * the orientation is the same object, it changes with it.
     */
    method SetLocationTo(x: real, y: real, z: real)
      requires Valid()
      modifies this, location
      ensures Valid()
      ensures State() == old(State()).(
        changed := true,
        locationValue := Vec3(x, y, z),
        orientationValue := if orientation == location then Vec3(x, y, z) else old(orientation.Value()))
    {
      hasChanged := true;
      location.Set(x, y, z);
    }

    /** Makes the given object the entity's orientation; marks the entity changed. */
    method SetOrientation(newOrientation: Vector3)
      requires Valid()
      modifies this
      ensures Valid()
      ensures State() == old(State()).(changed := true, orientation := newOrientation, orientationValue := newOrientation.Value())
    {
      hasChanged := true;
      orientation := newOrientation;
    }

    /**
     * Overwrites the components of the current orientation object; marks the entity changed. When
     * the location is the same object, it changes with it.
     */
    method SetOrientationTo(pitch: real, yaw: real, roll: real)
      requires Valid()
      modifies this, orientation
      ensures Valid()
      ensures State() == old(State()).(
        changed := true,
        orientationValue := Vec3(pitch, yaw, roll),
        locationValue := if location == orientation then Vec3(pitch, yaw, roll) else old(location.Value()))
    {
      hasChanged := true;
      orientation.Set(pitch, yaw, roll);
    }

    /** Sets the size multiplier; marks the entity changed. */
    method SetSizeScale(scale: real)
      requires Valid()
      modifies this
      ensures Valid()
      ensures State() == old(State()).(changed := true, sizeScale := scale)
    {
      hasChanged := true;
      sizeScale := scale;
    }

    /** Sets the speed to the magnitude of the argument; the dirty flag is not touched. */
    method SetSpeed(s: real)
      requires Valid()
      modifies this
      ensures Valid()
      ensures speed == Abs(s) && (speed == s || speed == -s)
      ensures State() == old(State()).(speed := Abs(s))
    {
      speed := Abs(s);
    }

    /** Moves the entity to another world; the dirty flag is not touched. */
    method SetWorld(w: World?)
      requires Valid()
      modifies this
      ensures Valid()
      ensures State() == old(State()).(world := w)
    {
      world := w;
    }

    /**
     * Adds (dx, dy, dz) to the location object's components in place; marks the entity changed.
     * When the orientation is the same object, it moves with it.
     */
    method TranslateLocation(dx: real, dy: real, dz: real)
      requires Valid()
      modifies this, location
      ensures Valid()
      ensures State() == old(State()).(
        changed := true,
        locationValue := Plus(old(location.Value()), Vec3(dx, dy, dz)),
        orientationValue := if orientation == location then Plus(old(location.Value()), Vec3(dx, dy, dz)) else old(orientation.Value()))
    {
      hasChanged := true;
      location.x := location.x + dx;
      location.y := location.y + dy;
      location.z := location.z + dz;
    }

    /**
     * Adds (dx, dy, dr) to the orientation object's pitch, yaw and roll in place; marks the entity
     * changed. When the location is the same object, it moves with it.
     */
    method TranslateOrientation(dx: real, dy: real, dr: real)
      requires Valid()
      modifies this, orientation
      ensures Valid()
      ensures State() == old(State()).(
        changed := true,
        orientationValue := Plus(old(orientation.Value()), Vec3(dx, dy, dr)),
        locationValue := if location == orientation then Plus(old(orientation.Value()), Vec3(dx, dy, dr)) else old(location.Value()))
    {
      hasChanged := true;
      orientation.x := orientation.x + dx;
      orientation.y := orientation.y + dy;
      orientation.z := orientation.z + dr;
    }
  }
}

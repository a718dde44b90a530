# Wrath Engine entity and terrain data layer, in Dafny

This project models the data layer of the Wrath game engine. It covers four parts:

- **Entities** (`entities.dfy`, module `Entities`). An entity has a location and an
  orientation. Both are vector objects that can be shared with other owners. It also has a
  size scale, a speed that is never negative, an optional descriptor, a world reference, and
  a dirty flag. The flag is set by every mutator of location, orientation, scale or
  descriptor. Setting the speed or the world leaves it alone. Only `ResetChangeTracker`
  clears it. Each mutator states the entity's whole new state through `State()`. A write
  that goes through a shared vector object is stated for the other field as well, whenever
  location and orientation are the same object.
- **Entity descriptors** (`descriptors.dfy`, module `Descriptors`). A descriptor is an
  immutable record: model, texture, jar path, default scale, reflectivity and shine
  dampening. It is read from `key=value` lines. `Scan` and `Load` are the reference
  definition of the reader. `LoadEntityDescriptor` is the reader's loop, proved equal to
  `Load`; `ReadLine` is its body for one line, proved equal to `Step`. The lemmas state the format's rules:
  - lines without `=` are skipped;
  - a line is split at its first `=`;
  - keys are matched ignoring ASCII case, and are not trimmed;
  - unknown keys are ignored;
  - the last line for a key wins, and keys never given keep their defaults;
  - there is no descriptor when the model or the texture is missing;
  - a malformed number aborts the load;
  - a file whose lines are written out twice loads to the same result as the file itself.
- **Terrain tiles** (`terrain.dfy`, module `Terrain`). The vertex count is rounded up to
  even, with Java's 32-bit wrap-around at the top of the range; a count of -1 rounds to 0
  and gives an empty tile. The grid is an `array2` of half that count on each side, and every cell starts null.
  The caller's location object is multiplied by the tile dimension (800) in place, and the
  tile keeps that same object.
- **Collision boxes** (`collision.dfy`, module `Collision`). A box is solid exactly when all
  three offsets are positive. The flag can be overridden later. The collision test is a
  stub that reports the flag.

Supporting modules:

- `Vectors` (`vectors.dfy`): the mutable `Vector3` class that stands in for the engine's
  vector objects, and the value type `Vec3`.
- `Worlds` (`worlds.dfy`): a stand-in `World` class that exists only so objects can refer to a world.
- `Wrappers` (`wrappers.dfy`): `Option` for null references and `Result` for exceptions.

The model uses Java's getters as plain field reads. A Java `final` field is a Dafny `const`.

Two facts about the code that the model keeps:

- `setSpeed` and `setWorld` do not set the dirty flag (Entity.java:207-219).
- The descriptor loader returns null when the model or the texture is missing
  (EntityDescriptor.java:145), or when an `IOException` is caught. A malformed number raises a
  `NumberFormatException` that the loader does not catch (EntityDescriptor.java:139-153),
  modelled as the outcome `NumberFormatError`.

## Model

| member | source | states |
|---|---|---|
| Entities.Entity.constructor | src/wrath/common/entities/Entity.java:42-65 | a new entity is marked changed, keeps the caller's location object, has a fresh orientation (0,0,0), speed 0, the given world and descriptor, and scale = the descriptor's default scale if there is one, else 1 |
| Entities.Entity.ResetChangeTracker | src/wrath/common/entities/Entity.java:133-136 | the dirty flag becomes false and every other field, reference and vector value is unchanged |
| Entities.Entity.SetEntityDescriptor | src/wrath/common/entities/Entity.java:142-146 | the descriptor becomes the given one, the scale becomes its default scale, the entity is marked changed, nothing else changes |
| Entities.Entity.SetLocation | src/wrath/common/entities/Entity.java:152-156 | the location becomes the given object (aliased, not copied), marked changed, nothing else changes |
| Entities.Entity.SetLocationTo | src/wrath/common/entities/Entity.java:164-168 | the location object's components become (x,y,z) in place, marked changed; the orientation's value changes too exactly when it is the same object |
| Entities.Entity.SetOrientation | src/wrath/common/entities/Entity.java:174-178 | the orientation becomes the given object, marked changed, nothing else changes |
| Entities.Entity.SetOrientationTo | src/wrath/common/entities/Entity.java:186-190 | the orientation object's components become (pitch,yaw,roll) in place, marked changed; the location's value changes too exactly when it is the same object |
| Entities.Entity.SetSizeScale | src/wrath/common/entities/Entity.java:196-200 | the scale becomes the argument, marked changed, nothing else changes |
| Entities.Abs | src/wrath/common/entities/Entity.java:209 | the absolute value is non-negative and equals the argument or its negation |
| Entities.Entity.SetSpeed | src/wrath/common/entities/Entity.java:207-210 | speed becomes abs(s), which is >= 0 and equals s or -s; the dirty flag and all other fields are untouched |
| Entities.Entity.SetWorld | src/wrath/common/entities/Entity.java:216-219 | only the world reference changes; the dirty flag is untouched |
| Entities.Entity.TranslateLocation | src/wrath/common/entities/Entity.java:227-233 | the location object's value becomes old value + (dx,dy,dz) in place, marked changed; scale, speed, orientation object and (unless aliased) orientation value unchanged |
| Entities.Entity.TranslateOrientation | src/wrath/common/entities/Entity.java:241-247 | the orientation object's value becomes old value + (dx,dy,dr) in place, marked changed; location (unless aliased), scale and speed unchanged |
| Descriptors.SplitFirst | src/wrath/common/entities/EntityDescriptor.java:133-134 | no split exactly when the line has no `=`; otherwise line = key + "=" + value with no `=` in the key |
| Descriptors.SplitJoin | src/wrath/common/entities/EntityDescriptor.java:133 | the split is at the first `=`: for a key without `=`, splitting key + "=" + value gives back exactly that key and value, whatever `=` the value contains |
| Descriptors.MatchKey | src/wrath/common/entities/EntityDescriptor.java:136-141 | a recognised key equals that key's name ignoring ASCII case; no key is recognised exactly when the text equals none of the six names ignoring case |
| Descriptors.MatchKeyIgnoresCase | src/wrath/common/entities/EntityDescriptor.java:136-141 | two spellings equal up to ASCII case select the same key |
| Descriptors.LoadEntityDescriptor | src/wrath/common/entities/EntityDescriptor.java:117-154 | the reader's loop over the lines produces exactly the reference outcome `Load`: a descriptor, null, or the number-format failure of the first bad numeric value |
| Descriptors.ReadLine | src/wrath/common/entities/EntityDescriptor.java:133-141 | the loop body for one line (split at the first `=`, the six-way case-insensitive key chain, the float parse of numeric values) has exactly the effect `Step`: the value stored under the recognised key, the line ignored otherwise, or the failure carrying the rejected text |
| Descriptors.FailureSticks | src/wrath/common/entities/EntityDescriptor.java:139-141 | once a numeric value fails to parse, the load ends with that failure; later lines cannot change it |
| Descriptors.InertLineIgnored | src/wrath/common/entities/EntityDescriptor.java:131-142 | a line assigning no recognised key can be deleted from anywhere in the file without changing the outcome |
| Descriptors.LineWithoutEqualsIgnored | src/wrath/common/entities/EntityDescriptor.java:133-134 | a line without `=` can be deleted from anywhere in the file without changing the outcome |
| Descriptors.UnknownKeyIgnored | src/wrath/common/entities/EntityDescriptor.java:136-141 | a `key=value` line whose key is none of the six, in any case, can be deleted without changing the outcome |
| Descriptors.SameAssignmentSameScan | src/wrath/common/entities/EntityDescriptor.java:131-142 | two lines that assign the same key the same value are interchangeable anywhere in the file |
| Descriptors.CaseInsensitiveKeys | src/wrath/common/entities/EntityDescriptor.java:136-141 | rewriting a line's key in a different ASCII case never changes the outcome |
| Descriptors.SpaceBlocksMatch | src/wrath/common/entities/EntityDescriptor.java:136-141 | a key containing a space matches none of the six names |
| Descriptors.PaddedKeyIgnored | src/wrath/common/entities/EntityDescriptor.java:133-141 | keys are not trimmed: " key=v" and "key =v" assign nothing |
| Descriptors.StepKeepsOthers | src/wrath/common/entities/EntityDescriptor.java:136-141 | reading a line leaves every key it does not assign unchanged |
| Descriptors.StepWrites | src/wrath/common/entities/EntityDescriptor.java:136-141 | reading a line that assigns a key stores that line's value (parsed, for the numeric keys) |
| Descriptors.LastOccurrenceWins | src/wrath/common/entities/EntityDescriptor.java:131-146 | after a successful read, a key's value is the one from the last line assigning it (text as given, or the parsed number), and a loaded descriptor's getter returns it |
| Descriptors.AbsentKeyKeepsDefault | src/wrath/common/entities/EntityDescriptor.java:119-125 | a key no line assigns keeps its default: model and texture absent, jar path "", scale 1, reflectivity 0, shine dampening 1; a loaded descriptor's getter returns it |
| Descriptors.ScanGivesLastValue | src/wrath/common/entities/EntityDescriptor.java:131-142 | after a successful read, every key holds the value its last assigning line writes, or its default |
| Descriptors.StepPresence | src/wrath/common/entities/EntityDescriptor.java:136-137 | after one line, a model (texture) is present exactly when it already was or the line assigns it |
| Descriptors.PresentIffAssigned | src/wrath/common/entities/EntityDescriptor.java:120-137 | after a successful read, a model (texture) is present exactly when some line assigns it |
| Descriptors.NoDescriptorIffModelOrTextureMissing | src/wrath/common/entities/EntityDescriptor.java:145 | the load returns null exactly when no number fails and there is no model line or no texture line |
| Descriptors.NumberFormatErrorIff | src/wrath/common/entities/EntityDescriptor.java:139-148 | the load aborts exactly when some numeric line's value fails to parse; it reports the first such value; that outcome is never null |
| Descriptors.DoubledFileLoadsSame | src/wrath/common/entities/EntityDescriptor.java:117-154 | a file whose lines are written out twice, one copy after the other, loads to the same outcome as the file itself: the same descriptor, null, or the same number-format failure |
| Terrain.RoundedCount | src/wrath/common/world/TerrainTile.java:49-50 | the stored vertex count is an even 32-bit value; below the largest 32-bit value it is the requested count or one more; the largest value wraps to the most negative one |
| Terrain.GridSizeNonNegativeIff | src/wrath/common/world/TerrainTile.java:49-51 | the grid's side, half the rounded count, is non-negative (so the allocation succeeds) exactly when -1 <= count < 2^31 - 1; -1 rounds to 0, an empty tile |
| Terrain.TerrainTile.constructor | src/wrath/common/world/TerrainTile.java:42-52 | the tile keeps the caller's location object and multiplies its components by 800 in place; stores the rounded count; allocates a fresh (count/2)x(count/2) grid in which getVertex returns null for every cell; accepts every count the allocation accepts, -1 included |
| Terrain.TerrainTile.GetVertex | src/wrath/common/world/TerrainTile.java:69-72 | a read of cell (x, y); needs 0 <= x,y < count/2. That a cell reads null until it is set comes from the constructor's and `SetVertex`'s contracts |
| Terrain.TerrainTile.SetVertex | src/wrath/common/world/TerrainTile.java:108-111 | after setVertex(x,y,v), getVertex(x,y) returns v and every other cell returns what it did before; both need 0 <= x,y < count/2 |
| Collision.DerivedSolidity | src/wrath/common/entities/CollisionBox.java:43 | the derived flag is true exactly when all three offsets are strictly positive |
| Collision.CollisionBox.constructor | src/wrath/common/entities/CollisionBox.java:39-44 | the parent entity is the given one (and, being constant, never changes); the offsets are stored exactly in a fresh vector; solid iff all offsets are positive |
| Collision.CollisionBox.IsColliding | src/wrath/common/entities/CollisionBox.java:72-76 | the test returns the current solid flag, whatever the other box is, null included |
| Collision.CollisionBox.SetSolid | src/wrath/common/entities/CollisionBox.java:91-94 | the flag becomes the argument; nothing else changes (the frame is the flag alone) |

## Left out

- World persistence (`World.java`): file creation, gzip, object serialization, loading and
  the empty world generation are not modelled. `Worlds.World` only carries a name.
- The entity and world event-handler registries are empty global lists with no logic. So
  is the root handler that the entity constructor creates.
- `WorldType` is a bare enumeration that nothing in the model needs.
- `GenericEntity` only forwards its constructor to `Entity`.
- Floating point: all quantities are `real`. Rounding in translate and scale is not
  modelled. Neither is `Math.abs(-0.0)`. NaN offsets are not modelled either; in Java they
  make the box solid, because every `<= 0` test is false.
- Descriptor file reading: the loader is given the file's lines. Opening the file, and the
  I/O-error path (which returns null), are not modelled.
- `Float.parseFloat` is a parameter: a partial function from text to a number.
- `equalsIgnoreCase` is modelled as ASCII case folding only.
- Blank model or texture values: the loader compares the trimmed text to `""` by reference.
  For a line that gives an empty or whitespace-only value, the answer depends on the JVM.
  The model treats such a line as present and so yields a descriptor. It returns null only
  when the key never appears, which is the one reliable case.
- Null references: entity locations, orientations and the arguments of `SetLocation` and
  `SetOrientation` are non-null objects in the model. `SetEntityDescriptor` takes a
  non-null descriptor. In Java, null there raises NullPointerException after the
  descriptor field is cleared.
- Terrain.TerrainTile.constructor takes a non-null location. In Java a null location raises
  NullPointerException when its components are scaled (TerrainTile.java:45).
- Descriptors.EntityDescriptor holds non-null strings. The Java constructor accepts null for
  any of them, and documents null as allowed for the jar path (EntityDescriptor.java:43).
  The loader never builds a descriptor with a null field.
- Terrain.TerrainTile.constructor requires -1 <= vertexCount < 2^31 - 1. Any other count
  makes Java throw NegativeArraySizeException, after the location has already been scaled:
  a count below -1 rounds to a negative value, and 2^31 - 1 wraps to -2^31 when incremented.
  `GridSizeNonNegativeIff` proves that this range is exactly the set of counts whose grid
  side is not negative.
- Terrain.TerrainTile.SetVertex and `GetVertex` require indices inside the grid, where
  Java would raise ArrayIndexOutOfBoundsException.
- Getters without logic are read as fields, not as members with their own contract:
  - `getLocation`, `getOrientation`, `getSizeScale`, `getSpeed`, `getWorld`,
    `getEntityDescriptor` and `changed`;
  - `getTileLocation`, `getVertexCount`, `getVerticies` and the tile's `getWorld`;
  - `getBoxOffsets`, `getEntity` and `isSolid`;
  - the descriptor's `getModelName`, `getTextureName`, `getJarPath`, `getDefaultScale`,
    `getReflectivity` and `getShineDampening`, read as fields of `EntityDescriptor` and, per
    key, through `DescriptorValue`.

  The offsets vector is a shared object, so a caller can change it. Changing it does not
  recompute `solid`.

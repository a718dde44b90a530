/**
 * Terrain tiles: a square grid of vertex objects covering one fixed-size patch of a world.
 * A tile is built from a location in tile units, which it rescales in place to world units.
 */
module Terrain {
  import opened Vectors
  import opened Worlds

  /** The side of a tile in world units. */
  const TileDimension: int := 800

  /** The bounds of a 32-bit signed integer. */
  const Int32Min: int := -0x8000_0000
  const Int32Max: int := 0x7FFF_FFFF

  /**
   * The vertex count a tile stores: an odd 32-bit count goes up by one, so the result is the
   * requested count rounded up to the next even number, except at the top of the range, where
   * the increment wraps around to the most negative value.
   */
  function RoundedCount(n: int): (r: int)
    requires Int32Min <= n <= Int32Max
    ensures Int32Min <= r <= Int32Max
    ensures r % 2 == 0
    ensures n < Int32Max ==> n <= r <= n + 1
    ensures n == Int32Max ==> r == Int32Min
  {
    if n % 2 == 0 then n
    else if n == Int32Max then Int32Min
    else n + 1
  }

  /**
   * The grid of half the rounded count per side can be allocated (its side is not negative)
   * exactly when the requested count is at least -1 and below the largest 32-bit value;
   * a count of -1 rounds to 0 and gives an empty tile.
   */
  lemma GridSizeNonNegativeIff(n: int)
    requires Int32Min <= n <= Int32Max
    ensures RoundedCount(n) >= 0 <==> -1 <= n < Int32Max
    ensures RoundedCount(-1) == 0
  {
  }

  class TerrainTile {
    const location: Vector3
    const vertices: array2<Vector3?>
    const vertexCount: nat
    var world: World?

    /** The vertex count is even and the grid is half of it along each axis. */
    ghost predicate Valid() {
      vertexCount % 2 == 0 &&
      vertices.Length0 == vertexCount / 2 &&
      vertices.Length1 == vertexCount / 2
    }

    /**
     * A tile over the caller's location object, which it keeps and multiplies by the tile dimension
     * in place, with an empty (all-null) grid of half the rounded vertex count per side.
     */
    constructor (location: Vector3, world: World?, vertexCount: int)
      requires -1 <= vertexCount < Int32Max
      modifies location
      ensures Valid()
      ensures this.location == location
      ensures location.Value() == Scaled(old(location.Value()), TileDimension as real)
      ensures this.world == world
      ensures this.vertexCount == RoundedCount(vertexCount)
      ensures fresh(vertices)
      ensures forall i, j :: 0 <= i < this.vertexCount / 2 && 0 <= j < this.vertexCount / 2 ==> GetVertex(i, j) == null
    {
      var count := vertexCount;
      if count % 2 != 0 {
        count := count + 1;
      }
      this.location := location;
      this.world := world;
      this.vertexCount := count;
      vertices := new Vector3?[count / 2, count / 2]((_, _) => null);
      new;
      location.x := location.x * TileDimension as real;
      location.y := location.y * TileDimension as real;
      location.z := location.z * TileDimension as real;
    }

    /** The vertex stored at (x, y); null where none has been set. */
    function GetVertex(x: int, y: int): (v: Vector3?)
      requires Valid()
      requires 0 <= x < vertexCount / 2 && 0 <= y < vertexCount / 2
      reads vertices
      ensures v == vertices[x, y]
    {
      vertices[x, y]
    }

    /** Stores a vertex at (x, y): reading (x, y) back gives it, and every other cell keeps its vertex. */
    method SetVertex(x: int, y: int, vertex: Vector3?)
      requires Valid()
      requires 0 <= x < vertexCount / 2 && 0 <= y < vertexCount / 2
      modifies vertices
      ensures GetVertex(x, y) == vertex
      ensures forall i, j :: 0 <= i < vertexCount / 2 && 0 <= j < vertexCount / 2 && (i, j) != (x, y) ==>
        GetVertex(i, j) == old(GetVertex(i, j))
    {
      vertices[x, y] := vertex;
    }
  }
}

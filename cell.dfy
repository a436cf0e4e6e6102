/** `Cell`: one box of the spatial grid the CPU manager lays over the simulation volume.
    Its geometry is fixed when it is made; only its list of boids changes. */
module Cells {
  import opened Vectors

  /** The geometry a cell is made from: its minimum corner and its size. */
  datatype Box = Box(minimum: Vec3, size: Vec3)

  /** The corner opposite the minimum one. */
  function MaxCorner(b: Box): Vec3 { Add(b.minimum, b.size) }

  /** The centre a cell stores: the minimum corner plus half the size. */
  function Centre(b: Box): Vec3 { Add(b.minimum, Div(b.size, 2.0)) }

  /** The stored centre is the midpoint of the two corners. */
  lemma CentreIsMidpoint(b: Box)
    ensures Centre(b) == Div(Add(b.minimum, MaxCorner(b)), 2.0)
    ensures Sub(Centre(b), b.minimum) == Sub(MaxCorner(b), Centre(b))
  {
  }

  class Cell {
    const position: Vec3
    const size: Vec3
    const minAABB: Vec3
    const maxAABB: Vec3
    /** The boids sorted into the cell, by index into the manager's array. */
    var boidsInCell: seq<nat>

    /** The box the cell was made from. */
    function Geometry(): Box
    {
      Box(minAABB, size)
    }

    constructor(minAABB: Vec3, size: Vec3)
      ensures Geometry() == Box(minAABB, size)
      ensures position == Centre(Geometry()) && maxAABB == MaxCorner(Geometry())
      ensures boidsInCell == []
    {
      this.position := Add(minAABB, Div(size, 2.0));
      this.size := size;
      this.minAABB := minAABB;
      this.maxAABB := Add(minAABB, size);
      this.boidsInCell := [];
    }

    /** Empties the list whatever it held, so a second call changes nothing. */
    method Clear()
      modifies this
      ensures boidsInCell == []
    {
      boidsInCell := [];
    }
  }
}

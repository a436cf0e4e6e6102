/** The simulation volume and the toroidal wrap that keeps boids inside it. */
module Boundary {
  import opened Vectors

  /** The axis-aligned box `[min, max]` the managers keep as `m_minBounds`/`m_maxBounds`. */
  datatype Bounds = Bounds(min: Vec3, max: Vec3)

  /** The bounds a box collider describes: its transform position plus its centre,
      minus and plus half its size. */
  function FromCollider(position: Vec3, centre: Vec3, size: Vec3): (b: Bounds)
    ensures Sub(b.max, b.min) == size
    ensures Add(b.min, b.max) == Scale(Add(position, centre), 2.0)
  {
    var half := Div(size, 2.0);
    Bounds(Sub(Add(position, centre), half), Add(Add(position, centre), half))
  }

  /** Wraps one coordinate once: a coordinate below `lo` re-enters below `hi` by the
      same distance, one above `hi` re-enters above `lo`; anything in between stays. */
  function WrapAxis(c: real, lo: real, hi: real): (r: real)
    ensures lo <= c <= hi ==> r == c
    ensures c < lo ==> r == hi - (lo - c)
    ensures lo <= c && hi < c ==> r == lo + (c - hi)
    ensures r == c || r == c + (hi - lo) || r == c - (hi - lo)
    ensures lo <= hi && lo - (hi - lo) <= c <= hi + (hi - lo) ==> lo <= r <= hi
  {
    if c < lo then
      var dist := lo - c;
      hi - dist
    else if c > hi then
      var dist := c - hi;
      lo + dist
    else
      c
  }

  /** `GetWrappedPosition`: each axis wrapped once, independently of the others. */
  function Wrap(b: Bounds, p: Vec3): Vec3
  {
    Vec3(WrapAxis(p.x, b.min.x, b.max.x),
         WrapAxis(p.y, b.min.y, b.max.y),
         WrapAxis(p.z, b.min.z, b.max.z))
  }

  predicate Inside(b: Bounds, p: Vec3)
  {
    b.min.x <= p.x <= b.max.x && b.min.y <= p.y <= b.max.y && b.min.z <= p.z <= b.max.z
  }

  /** The point overshoots the box by at most one extent on every axis. */
  predicate WithinOneExtent(b: Bounds, p: Vec3)
  {
    var e := Sub(b.max, b.min);
    b.min.x - e.x <= p.x <= b.max.x + e.x &&
    b.min.y - e.y <= p.y <= b.max.y + e.y &&
    b.min.z - e.z <= p.z <= b.max.z + e.z
  }

  /** A point inside the box is left where it is. */
  lemma WrapInsideUnchanged(b: Bounds, p: Vec3)
    requires Inside(b, p)
    ensures Wrap(b, p) == p
  {
  }

  /** A point that overshoots by no more than one extent lands inside the box, so a
      second wrap leaves it where the first one put it. */
  lemma WrapLandsInside(b: Bounds, p: Vec3)
    requires b.min.x <= b.max.x && b.min.y <= b.max.y && b.min.z <= b.max.z
    requires WithinOneExtent(b, p)
    ensures Inside(b, Wrap(b, p))
    ensures Wrap(b, Wrap(b, p)) == Wrap(b, p)
  {
  }

  /** `ComputeBoidManager.GetWrappedPosition` (the copy in `BoidManager` is the same): a local copy of the position whose axes are
      wrapped one after another, each with the distance it overshoots by. */
  method GetWrappedPosition(b: Bounds, worldPosition: Vec3) returns (wrapped: Vec3)
    ensures wrapped == Wrap(b, worldPosition)
  {
    wrapped := worldPosition;
    if wrapped.x < b.min.x {
      var dist := b.min.x - wrapped.x;
      wrapped := wrapped.(x := b.max.x - dist);
    } else if wrapped.x > b.max.x {
      var dist := wrapped.x - b.max.x;
      wrapped := wrapped.(x := b.min.x + dist);
    }
    if wrapped.y < b.min.y {
      var dist := b.min.y - wrapped.y;
      wrapped := wrapped.(y := b.max.y - dist);
    } else if wrapped.y > b.max.y {
      var dist := wrapped.y - b.max.y;
      wrapped := wrapped.(y := b.min.y + dist);
    }
    if wrapped.z < b.min.z {
      var dist := b.min.z - wrapped.z;
      wrapped := wrapped.(z := b.max.z - dist);
    } else if wrapped.z > b.max.z {
      var dist := wrapped.z - b.max.z;
      wrapped := wrapped.(z := b.min.z + dist);
    }
  }

  /** The position `ComputeBoidManager.GetWrappedPosition` leaves in its `ref` argument:
      untouched while wrapping is switched off, otherwise wrapped as above. */
  function WrapIfEnabled(enabled: bool, b: Bounds, p: Vec3): Vec3
  {
    if enabled then Wrap(b, p) else p
  }

  /** `ComputeBoidManager.GetWrappedPosition`, with the `ref` parameter as an in and an
      out value. */
  method GetWrappedPositionIfEnabled(enabled: bool, b: Bounds, worldPosition: Vec3) returns (r: Vec3)
    ensures !enabled ==> r == worldPosition
    ensures enabled ==> r == Wrap(b, worldPosition)
  {
    r := worldPosition;
    if !enabled {
      return;
    }
    r := GetWrappedPosition(b, worldPosition);
  }
}

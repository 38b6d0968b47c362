/** The 2D vector of base.py, the circle value handed to the renderer and the
    factory that builds circles. */
module Base {
  import opened Wrappers

  /** The value a `Vector` holds: its coordinate pair. Coordinates are
      integers, as in the repository's tests; see README for what this leaves
      out. */
  datatype Point = Point(x: int, y: int)

  const Origin := Point(0, 0)

  /** Component-wise sum (numpy `+` on two coordinate arrays). */
  function Add(a: Point, b: Point): Point {
    Point(a.x + b.x, a.y + b.y)
  }

  /** Component-wise difference, the displacement from `b` to `a`. */
  function Sub(a: Point, b: Point): (r: Point)
    ensures Add(r, b) == a
  {
    Point(a.x - b.x, a.y - b.y)
  }

  /** Subtracting what was added gives back the original point. */
  lemma SubAdd(a: Point, b: Point)
    ensures Sub(Add(a, b), b) == a
  {
  }

  /** Scalar multiple (numpy `k * array`). */
  function Scale(k: int, a: Point): Point {
    Point(k * a.x, k * a.y)
  }

  /** `np.dot` of two coordinate arrays; a vector's dot product with itself
      is its squared norm. */
  function Dot(a: Point, b: Point): (r: int)
    ensures a == b ==> r == NormSq(a)
  {
    a.x * b.x + a.y * b.y
  }

  /** The square of `np.linalg.norm`, so that no square root is needed. It is
      zero exactly at the origin. */
  function NormSq(a: Point): (r: int)
    ensures r >= 0
    ensures r == 0 <==> a == Origin
  {
    a.x * a.x + a.y * a.y
  }

  /** A 2D vector that wraps a numpy array BY REFERENCE: the constructor keeps
      the array it is given, the `x`/`y` views read and write that array, and
      whoever else writes the array is seen through the vector. */
  class Vector {
    const coordinates: array<int>

    predicate Valid() {
      coordinates.Length == 2
    }

    /** Stores `coordinates` itself, not a copy. */
    constructor (coordinates: array<int>)
      requires coordinates.Length == 2
      ensures Valid() && this.coordinates == coordinates
      ensures Value() == Point(coordinates[0], coordinates[1])
    {
      this.coordinates := coordinates;
    }

    /** The `x` property getter. */
    function X(): int
      reads coordinates
      requires Valid()
    {
      coordinates[0]
    }

    /** The `y` property getter. */
    function Y(): int
      reads coordinates
      requires Valid()
    {
      coordinates[1]
    }

    /** The coordinate pair the vector currently shows. */
    function Value(): Point
      reads coordinates
      requires Valid()
    {
      Point(X(), Y())
    }

    /** `__iter__`: the items a caller receives by iterating the vector, which
        are exactly the contents of the backing array. */
    function Iter(): (items: seq<int>)
      reads coordinates
      requires Valid()
      ensures items == coordinates[..]
      ensures |items| == 2
    {
      [X(), Y()]
    }

    /** The `x` property setter: writes slot 0 of the backing array. */
    method SetX(value: int)
      requires Valid()
      modifies coordinates
      ensures X() == value && Y() == old(Y())
    {
      coordinates[0] := value;
    }

    /** The `y` property setter: writes slot 1 of the backing array. */
    method SetY(value: int)
      requires Valid()
      modifies coordinates
      ensures Y() == value && X() == old(X())
    {
      coordinates[1] := value;
    }

    /** `__sub__`: a new vector over a new array; neither operand changes
        (the method may modify nothing that existed before). */
    method Minus(other: Vector) returns (r: Vector)
      requires Valid() && other.Valid()
      ensures fresh(r) && fresh(r.coordinates) && r.Valid()
      ensures r.Value() == Sub(Value(), other.Value())
    {
      var a := new int[2];
      a[0] := coordinates[0] - other.coordinates[0];
      a[1] := coordinates[1] - other.coordinates[1];
      r := new Vector(a);
    }
  }

  type Colour = (int, int, int)

  /** A circle for the renderer. */
  datatype Circle = Circle(centre: Point, radius: real, colour: Colour, alpha: real)

  /** Builds circles with a default radius and a fixed colour. */
  datatype CircleFactory = CircleFactory(radius: real, colour: Colour) {

    /** `build(centre, alpha, radius=None)`. */
    function Build(centre: Point, alpha: real, radius: Option<real>): (c: Circle)
      ensures c.centre == centre && c.alpha == alpha
      ensures c.colour == colour
      ensures radius.None? ==> c.radius == this.radius
      ensures radius.Some? ==> c.radius == radius.value
    {
      var r := if radius.None? then this.radius else radius.value;
      Circle(centre, r, colour, alpha)
    }
  }

  /** Omitting the radius is the same as passing the factory's own radius. */
  lemma DefaultRadius(f: CircleFactory, centre: Point, alpha: real)
    ensures f.Build(centre, alpha, None) == f.Build(centre, alpha, Some(f.radius))
  {
  }
}

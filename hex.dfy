/** Cube-coordinate hexes (src/hex.py): construction with the zero-sum check,
    componentwise arithmetic, the six neighbour directions, distance, and the
    row-offset conversion as the code writes it. */
module Hex {
  import opened Common

  /** Any triple; `Hex` below is the subset that the constructor admits. */
  datatype Cube = Cube(q: int, r: int, s: int)

  type Hex = c: Cube | c.q + c.r + c.s == 0 witness Cube(0, 0, 0)

  /** `Hex(q, r, s)`: raises ValueError unless q + r + s == 0. */
  function MakeHex(q: int, r: int, s: int): (h: Result<Hex>)
    ensures h.Ok? <==> q + r + s == 0
    ensures h.Ok? ==> h.value.q == q && h.value.r == r && h.value.s == s
    ensures h.Err? ==> h.error == ValueError
  {
    if q + r + s != 0 then Err(ValueError) else Ok(Cube(q, r, s))
  }

  /** `a + b`; the zero-sum check always passes, so no error can arise. */
  function Add(a: Hex, b: Hex): (h: Hex)
    ensures MakeHex(a.q + b.q, a.r + b.r, a.s + b.s) == Ok(h)
  {
    Cube(a.q + b.q, a.r + b.r, a.s + b.s)
  }

  /** `a - b` */
  function Sub(a: Hex, b: Hex): (h: Hex)
    ensures MakeHex(a.q - b.q, a.r - b.r, a.s - b.s) == Ok(h)
  {
    Cube(a.q - b.q, a.r - b.r, a.s - b.s)
  }

  /** `a * k` */
  function Scale(a: Hex, k: int): (h: Hex)
    ensures MakeHex(a.q * k, a.r * k, a.s * k) == Ok(h)
  {
    Cube(a.q * k, a.r * k, a.s * k)
  }

  /** Subtraction undoes addition, and addition is commutative. */
  lemma AddSubInverse(a: Hex, b: Hex)
    ensures Sub(Add(a, b), b) == a
    ensures Add(a, b) == Add(b, a)
    ensures Add(Sub(a, b), b) == a
  {
  }

  /** Scaling distributes over addition. */
  lemma ScaleDistributes(a: Hex, b: Hex, k: int)
    ensures Scale(Add(a, b), k) == Add(Scale(a, k), Scale(b, k))
  {
    assert (a.q + b.q) * k == a.q * k + b.q * k;
    assert (a.r + b.r) * k == a.r * k + b.r * k;
    assert (a.s + b.s) * k == a.s * k + b.s * k;
  }

  /** `hex_directions` */
  const Directions: seq<Hex> := [
    Cube(1, 0, -1), Cube(1, -1, 0), Cube(0, -1, 1),
    Cube(-1, 0, 1), Cube(-1, 1, 0), Cube(0, 1, -1)
  ]

  /** `hex_neighbor(h, direction)`: Python list indexing, so -6..-1 count
      from the end and anything else raises IndexError. */
  function Neighbor(h: Hex, direction: int): (n: Result<Hex>)
    ensures n.Ok? <==> -6 <= direction < 6
    ensures n.Err? ==> n.error == IndexError
    ensures n.Ok? ==> n.value == Add(h, Directions[direction % 6])
  {
    if 0 <= direction < 6 then Ok(Add(h, Directions[direction]))
    else if -6 <= direction < 0 then Ok(Add(h, Directions[direction + 6]))
    else Err(IndexError)
  }

  function Max3(a: int, b: int, c: int): int {
    if a >= b && a >= c then a else if b >= c then b else c
  }

  /** `hex_distance(a, b)` */
  function Distance(a: Hex, b: Hex): (d: int)
    ensures d >= 0
  {
    var v := Sub(a, b);
    (Abs(v.q) + Abs(v.r) + Abs(v.s)) / 2
  }

  /** For a zero-sum triple the sum of magnitudes is even (so `// 2` is
      exact) and equals twice the largest magnitude. */
  lemma {:induction false} ZeroSumMagnitudes(v: Hex)
    ensures (Abs(v.q) + Abs(v.r) + Abs(v.s)) % 2 == 0
    ensures Abs(v.q) + Abs(v.r) + Abs(v.s) == 2 * Max3(Abs(v.q), Abs(v.r), Abs(v.s))
  {
    // One component has the sign opposite to the other two and carries their sum.
    if v.q >= 0 && v.r >= 0 { assert Abs(v.s) == v.q + v.r; }
    else if v.q <= 0 && v.r <= 0 { assert Abs(v.s) == -(v.q + v.r); }
    else if v.q >= 0 && v.s >= 0 { assert Abs(v.r) == v.q + v.s; }
    else if v.q <= 0 && v.s <= 0 { assert Abs(v.r) == -(v.q + v.s); }
    else { assert Abs(v.q) == Abs(v.r) + Abs(v.s); }
  }

  /** The distance is the largest componentwise difference, is symmetric and
      is zero exactly for equal hexes. */
  lemma DistanceProperties(a: Hex, b: Hex)
    ensures Distance(a, b) == Max3(Abs(a.q - b.q), Abs(a.r - b.r), Abs(a.s - b.s))
    ensures Distance(a, b) == Distance(b, a)
    ensures Distance(a, b) == 0 <==> a == b
  {
    DistanceIsMax(a, b);
    DistanceIsMax(b, a);
    assert Abs(a.q - b.q) == Abs(b.q - a.q) && Abs(a.r - b.r) == Abs(b.r - a.r) && Abs(a.s - b.s) == Abs(b.s - a.s);
  }

  lemma DistanceIsMax(a: Hex, b: Hex)
    ensures Distance(a, b) == Max3(Abs(a.q - b.q), Abs(a.r - b.r), Abs(a.s - b.s))
  {
    var v := Sub(a, b);
    ZeroSumMagnitudes(v);
  }

  /** Every direction leads to a hex at distance 1. */
  lemma NeighborAtDistanceOne(h: Hex, direction: int)
    requires -6 <= direction < 6
    ensures Neighbor(h, direction).Ok?
    ensures Distance(Neighbor(h, direction).value, h) == 1
  {
    var n := Neighbor(h, direction).value;
    DistanceProperties(n, h);
  }

  datatype OffsetCoord = OffsetCoord(col: int, row: int)

  /** Python's `r & 1` is r mod 2 and `// 2` floors; Dafny's `%` and `/`
      by 2 agree with both, negative r included. */
  function RowShift(row: int): int {
    (row + row % 2) / 2
  }

  /** `roffset_from_cube(h)`: keeps the row, and converting back gives the
      same hex. */
  function FromCube(h: Hex): (c: OffsetCoord)
    ensures c.row == h.r && ToCube(c) == h
  {
    OffsetCoord(h.q + RowShift(h.r), h.r)
  }

  /** `roffset_to_cube(coord)`: always a valid hex (s = -q - r). */
  function ToCube(c: OffsetCoord): (h: Hex)
    ensures h.r == c.row
    ensures MakeHex(h.q, h.r, -h.q - h.r) == Ok(h)
  {
    var q := c.col - RowShift(c.row);
    Cube(q, c.row, -q - c.row)
  }

  /** The two conversions are inverse to each other in both directions,
      for every integer column and row. */
  lemma OffsetRoundTrip(c: OffsetCoord, h: Hex)
    ensures FromCube(ToCube(c)) == c
    ensures ToCube(FromCube(h)) == h
  {
  }
}

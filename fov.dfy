/** Recursive shadowcasting (src/fov.py), as the code is written.

    Two defects of `ShadowLine.add` are kept: on an empty list its for/else
    leaves `index == 1` and reading `shadows[0]` raises IndexError, and the
    "overlaps both" branch assigns to a field of an immutable named tuple,
    which raises AttributeError. Since every octant scan starts from an empty
    line, the first visible light-blocking cell makes `calculate_fov` raise;
    otherwise nothing is ever shadowed. `CalculateFov` is proved to do exactly
    that. */
module Fov {
  import opened Common

  /** An angular interval, slopes as exact rationals. */
  datatype Shadow = Shadow(start: real, end: real)

  predicate Covers(shadow: Shadow, projection: Shadow) {
    shadow.start <= projection.start && shadow.end >= projection.end
  }

  /** What `is_in_shadow` answers: one stored shadow alone covers the projection. */
  predicate InShadow(shadows: seq<Shadow>, projection: Shadow) {
    exists i | 0 <= i < |shadows| :: Covers(shadows[i], projection)
  }

  predicate SortedByStart(shadows: seq<Shadow>) {
    forall i, j | 0 <= i < j < |shadows| :: shadows[i].start <= shadows[j].start
  }

  /** Index of the first shadow whose start is at least `start`, or the length. */
  function FirstAtLeast(shadows: seq<Shadow>, start: real): (i: nat)
    ensures i <= |shadows|
    ensures forall j | 0 <= j < i :: shadows[j].start < start
    ensures i < |shadows| ==> shadows[i].start >= start
  {
    if shadows == [] then 0
    else if shadows[0].start >= start then 0
    else 1 + FirstAtLeast(shadows[1..], start)
  }

  /** The `index` that the for/else loop of `add` leaves behind: the first
      index whose start is at least the new start, else one past the last
      index, which is 1 (not 0) on an empty list. */
  function AddIndex(shadows: seq<Shadow>, shadow: Shadow): nat {
    if shadows == [] then 1 else FirstAtLeast(shadows, shadow.start)
  }

  /** `add(shadow)`: the new list, or the exception it raises. An empty list
      always raises IndexError; the only other failure is AttributeError; a
      success merges into one shadow or inserts one. */
  function AddSpec(shadows: seq<Shadow>, shadow: Shadow): (r: Result<seq<Shadow>>)
    ensures shadows == [] ==> r == Err(IndexError)
    ensures r.Err? ==> r.error == IndexError || r.error == AttributeError
    ensures r.Ok? ==> |shadows| <= |r.value| <= |shadows| + 1
  {
    var index := AddIndex(shadows, shadow);
    if index > 0 && index - 1 >= |shadows| then Err(IndexError)
    else
      var overlapsPrevious := index > 0 && shadows[index - 1].end > shadow.start;
      var overlapsNext := index < |shadows| && shadows[index].start < shadow.end;
      if overlapsNext && overlapsPrevious then Err(AttributeError)
      else if overlapsNext then Ok(shadows[index := Shadow(shadow.start, shadows[index].end)])
      else if overlapsPrevious then Ok(shadows[index - 1 := Shadow(shadows[index - 1].start, shadow.end)])
      else Ok(shadows[..index] + [shadow] + shadows[index..])
  }

  /** Adding to an empty line always raises IndexError. */
  lemma AddToEmptyFails(shadow: Shadow)
    ensures AddSpec([], shadow) == Err(IndexError)
  {
  }

  /** On a non-empty line, `add` raises only when the new shadow overlaps
      both of its neighbours (AttributeError); otherwise it inserts the new
      shadow (one more entry) when it overlaps neither, and merges it into the
      one neighbour it overlaps (same length) when it overlaps exactly one. */
  lemma AddNonEmpty(shadows: seq<Shadow>, shadow: Shadow)
    requires shadows != []
    ensures var i := FirstAtLeast(shadows, shadow.start);
      var prev := i > 0 && shadows[i - 1].end > shadow.start;
      var next := i < |shadows| && shadows[i].start < shadow.end;
      && (AddSpec(shadows, shadow).Err? <==> prev && next)
      && (AddSpec(shadows, shadow).Err? ==> AddSpec(shadows, shadow).error == AttributeError)
      && (AddSpec(shadows, shadow).Ok? ==>
            |AddSpec(shadows, shadow).value| == |shadows| + (if prev || next then 0 else 1))
  {
  }

  /** A position is shadowed when some stored interval contains it. */
  predicate Shadowed(shadows: seq<Shadow>, x: real) {
    exists i | 0 <= i < |shadows| :: shadows[i].start <= x <= shadows[i].end
  }

  /** `add` never shadows more than the old shadows and the new one together:
      each merge spans two overlapping intervals. */
  lemma AddSound(shadows: seq<Shadow>, shadow: Shadow, x: real)
    requires AddSpec(shadows, shadow).Ok?
    requires Shadowed(AddSpec(shadows, shadow).value, x)
    ensures Shadowed(shadows, x) || shadow.start <= x <= shadow.end
  {
    var r := AddSpec(shadows, shadow).value;
    var i := AddIndex(shadows, shadow);
    var k :| 0 <= k < |r| && r[k].start <= x <= r[k].end;
    var prev := i > 0 && shadows[i - 1].end > shadow.start;
    var next := i < |shadows| && shadows[i].start < shadow.end;
    if next {
      if k != i { assert r[k] == shadows[k]; }
      else if x > shadow.end { assert shadows[i].start <= x <= shadows[i].end; }
    } else if prev {
      if k != i - 1 { assert r[k] == shadows[k]; }
      else if x < shadow.start { assert shadows[i - 1].start <= x <= shadows[i - 1].end; }
    } else {
      assert r == shadows[..i] + [shadow] + shadows[i..];
      if k < i { assert r[k] == shadows[k]; }
      else if k > i { assert r[k] == shadows[k - 1]; }
    }
  }

  /** Whenever `add` succeeds it keeps the list sorted by start. */
  lemma {:induction false} AddKeepsSorted(shadows: seq<Shadow>, shadow: Shadow)
    requires SortedByStart(shadows)
    requires AddSpec(shadows, shadow).Ok?
    ensures SortedByStart(AddSpec(shadows, shadow).value)
  {
    var i := FirstAtLeast(shadows, shadow.start);
    var r := AddSpec(shadows, shadow).value;
    var next := i < |shadows| && shadows[i].start < shadow.end;
    var prev := i > 0 && shadows[i - 1].end > shadow.start;
    if !next && !prev {
      assert r == shadows[..i] + [shadow] + shadows[i..];
      forall a, b | 0 <= a < b < |r| ensures r[a].start <= r[b].start {
        if a < i && b == i { assert r[a] == shadows[a]; }
        else if a < i && b > i { assert r[a] == shadows[a] && r[b] == shadows[b - 1]; }
        else if a == i { assert r[b] == shadows[b - 1]; }
        else if a > i { assert r[a] == shadows[a - 1] && r[b] == shadows[b - 1]; }
      }
    }
  }

  /** `ShadowLine`: the list of shadows, changed in place by `add`. */
  class ShadowLine {
    var shadows: seq<Shadow>

    constructor ()
      ensures shadows == []
    {
      shadows := [];
    }

    /** `is_in_shadow(projection)` */
    method IsInShadow(projection: Shadow) returns (b: bool)
      ensures b == InShadow(shadows, projection)
    {
      var i := 0;
      while i < |shadows|
        invariant 0 <= i <= |shadows|
        invariant forall j | 0 <= j < i :: !Covers(shadows[j], projection)
      {
        var shadow := shadows[i];
        if shadow.start <= projection.start && shadow.end >= projection.end {
          return true;
        }
        i := i + 1;
      }
      return false;
    }

    /** `add(shadow)`: on failure the list is left as it was. */
    method Add(shadow: Shadow) returns (outcome: Outcome)
      modifies this
      ensures AddSpec(old(shadows), shadow).Ok? ==>
                outcome == Pass && shadows == AddSpec(old(shadows), shadow).value
      ensures AddSpec(old(shadows), shadow).Err? ==>
                outcome == Fail(AddSpec(old(shadows), shadow).error) && shadows == old(shadows)
    {
      // for index, s in enumerate(shadows): ... break / else: index += 1
      var index := 0;
      var n := 0;
      var broke := false;
      while n < |shadows|
        invariant 0 <= n <= |shadows|
        invariant forall j | 0 <= j < n :: shadows[j].start < shadow.start
        invariant index == if n == 0 then 0 else n - 1
      {
        index := n;
        if shadows[n].start >= shadow.start {
          broke := true;
          break;
        }
        n := n + 1;
      }
      if !broke {
        index := index + 1;
      }
      assert index == AddIndex(shadows, shadow) by {
        FirstAtLeastUnique(shadows, shadow.start, index);
      }
      if index > 0 && index - 1 >= |shadows| {
        return Fail(IndexError);
      }
      var overlappingPrevious: Option<Shadow> :=
        if index > 0 && shadows[index - 1].end > shadow.start then Some(shadows[index - 1]) else None;
      var overlappingNext: Option<Shadow> :=
        if index < |shadows| && shadows[index].start < shadow.end then Some(shadows[index]) else None;
      if overlappingNext.Some? {
        if overlappingPrevious.Some? {
          // `overlapping_previous.end = ...` on a named tuple
          return Fail(AttributeError);
        } else {
          shadows := shadows[index := Shadow(shadow.start, overlappingNext.value.end)];
        }
      } else {
        if overlappingPrevious.Some? {
          shadows := shadows[index - 1 := Shadow(overlappingPrevious.value.start, shadow.end)];
        } else {
          shadows := shadows[..index] + [shadow] + shadows[index..];
        }
      }
      return Pass;
    }

    /** `is_full_shadow`: a single shadow spanning the whole octant. */
    function IsFullShadow(): (full: bool)
      reads this
      ensures full <==> shadows == [Shadow(0.0, 1.0)]
    {
      |shadows| == 1 && shadows[0].start == 0.0 && shadows[0].end == 1.0
    }
  }

  /** The loop's index characterisation determines `FirstAtLeast`. */
  lemma {:induction false} FirstAtLeastUnique(shadows: seq<Shadow>, start: real, index: nat)
    requires shadows != [] ==> index <= |shadows|
    requires shadows != [] ==> forall j | 0 <= j < index :: shadows[j].start < start
    requires shadows != [] && index < |shadows| ==> shadows[index].start >= start
    requires shadows == [] ==> index == 1
    ensures index == (if shadows == [] then 1 else FirstAtLeast(shadows, start))
  {
  }

  /** `_project_tile(row, col)`: the tile's angular footprint, which for a
      cell of an octant row is a non-empty slice of [0, 1]. */
  function ProjectTile(row: int, col: int): (p: Shadow)
    requires row + 1 != 0 && row + 2 != 0
    ensures 0 <= col <= row ==> 0.0 <= p.start < p.end <= 1.0
  {
    var p := Shadow(col as real / (row + 2) as real, (col + 1) as real / (row + 1) as real);
    if 0 <= col <= row then SlopeBounds(row, col); p else p
  }

  lemma DivTimes(x: real, a: real)
    requires a > 0.0
    ensures x / a * a == x
  {
  }

  /** The slopes of a cell of an octant row. */
  lemma SlopeBounds(row: int, col: int)
    requires 0 <= col <= row
    ensures 0.0 <= col as real / (row + 2) as real < (col + 1) as real / (row + 1) as real <= 1.0
  {
    var a, b := (row + 2) as real, (row + 1) as real;
    var start, end := col as real / a, (col + 1) as real / b;
    DivTimes(col as real, a);
    DivTimes((col + 1) as real, b);
    assert start < end by {
      assert col as real * b < (col + 1) as real * a;
    }
    assert end <= 1.0 by {
      assert (col + 1) as real <= b;
    }
  }

  /** For a cell of an octant row, the projection is a non-empty slice of
      [0, 1] that touches 0 exactly in column 0 and 1 exactly in the last
      column. */
  lemma ProjectTileBounds(row: int, col: int)
    requires 0 <= col <= row
    ensures var p := ProjectTile(row, col);
      && 0.0 <= p.start < p.end <= 1.0
      && (p.start == 0.0 <==> col == 0)
      && (p.end == 1.0 <==> col == row)
  {
    var a, b := (row + 2) as real, (row + 1) as real;
    var p := ProjectTile(row, col);
    DivTimes(col as real, a);
    DivTimes((col + 1) as real, b);
    assert p.start < p.end by {
      assert col as real * b < (col + 1) as real * a;
    }
    assert p.end <= 1.0 by {
      assert (col + 1) as real <= b;
    }
  }

  type Cell = (int, int)

  /** The FOV's view of a map: its size and the light-blocking flag of each
      object placed on it. */
  datatype Occupant = Occupant(x: int, y: int, blocksLight: bool)
  datatype FovMap = FovMap(width: int, height: int, objects: seq<Occupant>)

  predicate InBounds(m: FovMap, c: Cell) {
    0 <= c.0 < m.width && 0 <= c.1 < m.height
  }

  /** The cells holding at least one light-blocking object. */
  function Walls(m: FovMap): set<Cell> {
    set o | o in m.objects && o.blocksLight :: (o.x, o.y)
  }

  function Chebyshev(a: Cell, b: Cell): nat {
    var dx, dy := Abs(a.0 - b.0), Abs(a.1 - b.1);
    if dx >= dy then dx else dy
  }

  /** `_transform_octant(row, col, octant)`: raises ValueError outside 0..7. */
  function TransformOctant(row: int, col: int, octant: int): (t: Result<Cell>)
    ensures t.Ok? <==> 0 <= octant < 8
    ensures t.Err? ==> t.error == ValueError
  {
    if octant == 0 then Ok((col, -row))
    else if octant == 1 then Ok((row, -col))
    else if octant == 2 then Ok((row, col))
    else if octant == 3 then Ok((col, row))
    else if octant == 4 then Ok((-col, row))
    else if octant == 5 then Ok((-row, col))
    else if octant == 6 then Ok((-row, -col))
    else if octant == 7 then Ok((-col, -row))
    else Err(ValueError)
  }

  /** Every cell of octant row `row` lies on the ring at Chebyshev distance `row`. */
  lemma TransformOnRing(row: int, col: int, octant: int)
    requires 0 <= col <= row && 0 <= octant < 8
    ensures Chebyshev(TransformOctant(row, col, octant).value, (0, 0)) == row
  {
  }

  /** The octant and column that reach a given offset on ring `d`. */
  function OctantOf(dx: int, dy: int): (oc: (int, int))
    requires Chebyshev((dx, dy), (0, 0)) >= 1
    ensures var d := Chebyshev((dx, dy), (0, 0));
      && 0 <= oc.0 < 8 && 0 <= oc.1 <= d
      && TransformOctant(d, oc.1, oc.0) == Ok((dx, dy))
  {
    var d: int := Chebyshev((dx, dy), (0, 0));
    if dy == -d && dx >= 0 then (0, dx)
    else if dx == d && dy <= 0 then (1, -dy)
    else if dx == d then (2, dy)
    else if dy == d && dx >= 0 then (3, dx)
    else if dy == d then (4, -dx)
    else if dx == -d && dy >= 0 then (5, dy)
    else if dx == -d then (6, -dy)
    else (7, -dx)
  }

  /** The eight octants cover every cell of ring `d`, and only those. */
  lemma OctantsCoverRing(d: int, dx: int, dy: int)
    requires d >= 1
    ensures Chebyshev((dx, dy), (0, 0)) == d <==>
      exists octant, col | 0 <= octant < 8 && 0 <= col <= d :: TransformOctant(d, col, octant) == Ok((dx, dy))
  {
    if Chebyshev((dx, dy), (0, 0)) == d {
      var oc := OctantOf(dx, dy);
      assert TransformOctant(d, oc.1, oc.0) == Ok((dx, dy));
    } else {
      forall octant, col | 0 <= octant < 8 && 0 <= col <= d
        ensures TransformOctant(d, col, octant) != Ok((dx, dy))
      {
        TransformOnRing(d, col, octant);
      }
    }
  }

  /** The absolute cell that octant-local (row, col) designates. */
  function OctantCell(ox: int, oy: int, octant: int, row: int, col: int): Cell
    requires 0 <= octant < 8
  {
    var t := TransformOctant(row, col, octant).value;
    (ox + t.0, oy + t.1)
  }

  /** The in-bounds cells of columns 0..n-1 of one octant row. */
  function RowCells(m: FovMap, ox: int, oy: int, octant: int, row: int, n: int): set<Cell>
    requires 0 <= octant < 8
    decreases n
  {
    if n <= 0 then {}
    else
      var c := OctantCell(ox, oy, octant, row, n - 1);
      RowCells(m, ox, oy, octant, row, n - 1) + (if InBounds(m, c) then {c} else {})
  }

  /** The in-bounds cells of rows 1..rows of one octant. */
  function OctantCells(m: FovMap, ox: int, oy: int, octant: int, rows: int): set<Cell>
    requires 0 <= octant < 8
    decreases rows
  {
    if rows <= 0 then {}
    else OctantCells(m, ox, oy, octant, rows - 1) + RowCells(m, ox, oy, octant, rows, rows + 1)
  }

  /** The in-bounds cells of rows 1..rows of octants 0..n-1. */
  function AllOctantCells(m: FovMap, ox: int, oy: int, n: int, rows: int): set<Cell>
    requires 0 <= n <= 8
    decreases n
  {
    if n == 0 then {}
    else AllOctantCells(m, ox, oy, n - 1, rows) + OctantCells(m, ox, oy, n - 1, rows)
  }

  /** The in-bounds cells at Chebyshev distance 1..radius from the origin. */
  function Ring(m: FovMap, ox: int, oy: int, radius: int): set<Cell> {
    set x, y | ox - radius <= x <= ox + radius && oy - radius <= y <= oy + radius
                 && InBounds(m, (x, y)) && 1 <= Chebyshev((x, y), (ox, oy)) <= radius :: (x, y)
  }

  lemma {:induction false} RowCellsMember(m: FovMap, ox: int, oy: int, octant: int, row: int, n: int, c: Cell)
    requires 0 <= octant < 8
    ensures c in RowCells(m, ox, oy, octant, row, n) <==>
      InBounds(m, c) && exists col | 0 <= col < n :: c == OctantCell(ox, oy, octant, row, col)
    decreases n
  {
    if n > 0 {
      RowCellsMember(m, ox, oy, octant, row, n - 1, c);
    }
  }

  /** `c` is column `col` of some row 1..rows of `octant`, 0 <= col <= row. */
  ghost predicate InOctant(ox: int, oy: int, octant: int, rows: int, c: Cell)
    requires 0 <= octant < 8
  {
    exists row, col | 1 <= row <= rows && 0 <= col <= row :: c == OctantCell(ox, oy, octant, row, col)
  }

  lemma {:induction false} OctantCellsMember(m: FovMap, ox: int, oy: int, octant: int, rows: int, c: Cell)
    requires 0 <= octant < 8
    ensures c in OctantCells(m, ox, oy, octant, rows) <==> InBounds(m, c) && InOctant(ox, oy, octant, rows, c)
    decreases rows
  {
    if rows > 0 {
      OctantCellsMember(m, ox, oy, octant, rows - 1, c);
      RowCellsMember(m, ox, oy, octant, rows, rows + 1, c);
    }
  }

  lemma {:induction false} AllOctantCellsMember(m: FovMap, ox: int, oy: int, n: int, rows: int, c: Cell)
    requires 0 <= n <= 8
    ensures c in AllOctantCells(m, ox, oy, n, rows) <==>
      InBounds(m, c) && exists octant | 0 <= octant < n :: InOctant(ox, oy, octant, rows, c)
    decreases n
  {
    if n > 0 {
      AllOctantCellsMember(m, ox, oy, n - 1, rows, c);
      OctantCellsMember(m, ox, oy, n - 1, rows, c);
      if InBounds(m, c) && exists octant | 0 <= octant < n :: InOctant(ox, oy, octant, rows, c) {
        var octant :| 0 <= octant < n && InOctant(ox, oy, octant, rows, c);
        if octant == n - 1 {
          assert c in OctantCells(m, ox, oy, n - 1, rows);
        }
      }
    }
  }

  lemma RingMember(m: FovMap, ox: int, oy: int, radius: int, c: Cell)
    ensures c in Ring(m, ox, oy, radius) <==> InBounds(m, c) && 1 <= Chebyshev(c, (ox, oy)) <= radius
  {
    if InBounds(m, c) && 1 <= Chebyshev(c, (ox, oy)) <= radius {
      var (x, y) := c;
      assert ox - radius <= x <= ox + radius && oy - radius <= y <= oy + radius;
    }
  }

  /** Each scanned cell lies on the ring at the distance of its row. */
  lemma ScannedInRing(m: FovMap, ox: int, oy: int, radius: int, c: Cell)
    requires c in AllOctantCells(m, ox, oy, 8, radius)
    ensures c in Ring(m, ox, oy, radius)
  {
    AllOctantCellsMember(m, ox, oy, 8, radius, c);
    var octant :| 0 <= octant < 8 && InOctant(ox, oy, octant, radius, c);
    var row, col :| 1 <= row <= radius && 0 <= col <= row && c == OctantCell(ox, oy, octant, row, col);
    OctantCellOnRing(ox, oy, octant, row, col);
    RingMember(m, ox, oy, radius, c);
  }

  /** The cell octant-local (row, col) designates is `row` steps from the
      origin. */
  lemma OctantCellOnRing(ox: int, oy: int, octant: int, row: int, col: int)
    requires 0 <= col <= row && 0 <= octant < 8
    ensures Chebyshev(OctantCell(ox, oy, octant, row, col), (ox, oy)) == row
  {
    var t := TransformOctant(row, col, octant).value;
    TransformOnRing(row, col, octant);
    assert (ox + t.0) - ox == t.0 - 0 && (oy + t.1) - oy == t.1 - 0;
  }

  /** Each ring cell is reached by some octant, row and column. */
  lemma RingScanned(m: FovMap, ox: int, oy: int, radius: int, c: Cell)
    requires c in Ring(m, ox, oy, radius)
    ensures c in AllOctantCells(m, ox, oy, 8, radius)
  {
    RingMember(m, ox, oy, radius, c);
    var dx, dy := c.0 - ox, c.1 - oy;
    var d := Chebyshev(c, (ox, oy));
    assert Chebyshev((dx, dy), (0, 0)) == d;
    var oc := OctantOf(dx, dy);
    assert c == OctantCell(ox, oy, oc.0, d, oc.1);
    assert InOctant(ox, oy, oc.0, radius, c);
    AllOctantCellsMember(m, ox, oy, 8, radius, c);
  }

  /** The eight octant scans visit exactly the in-bounds cells at Chebyshev
      distance 1..radius. */
  lemma AllOctantsAreRing(m: FovMap, ox: int, oy: int, radius: int)
    ensures AllOctantCells(m, ox, oy, 8, radius) == Ring(m, ox, oy, radius)
  {
    forall c | c in AllOctantCells(m, ox, oy, 8, radius) ensures c in Ring(m, ox, oy, radius) {
      ScannedInRing(m, ox, oy, radius, c);
    }
    forall c | c in Ring(m, ox, oy, radius) ensures c in AllOctantCells(m, ox, oy, 8, radius) {
      RingScanned(m, ox, oy, radius, c);
    }
  }

  lemma {:induction false} RowCellsGrow(m: FovMap, ox: int, oy: int, octant: int, row: int, a: int, b: int)
    requires 0 <= octant < 8 && a <= b
    ensures RowCells(m, ox, oy, octant, row, a) <= RowCells(m, ox, oy, octant, row, b)
    decreases b - a
  {
    if a < b {
      RowCellsGrow(m, ox, oy, octant, row, a, b - 1);
    }
  }

  lemma {:induction false} OctantCellsGrow(m: FovMap, ox: int, oy: int, octant: int, a: int, b: int)
    requires 0 <= octant < 8 && a <= b
    ensures OctantCells(m, ox, oy, octant, a) <= OctantCells(m, ox, oy, octant, b)
    decreases b - a
  {
    if a < b {
      OctantCellsGrow(m, ox, oy, octant, a, b - 1);
    }
  }

  /** Column `col` of a row adds its cell when that cell is in bounds. */
  lemma NextColumn(m: FovMap, ox: int, oy: int, octant: int, row: int, col: int,
                   tiles: set<Cell>, walls: set<Cell>)
    requires 0 <= octant < 8 && 0 <= col
    ensures var c := OctantCell(ox, oy, octant, row, col);
      && (!InBounds(m, c) ==> RowCells(m, ox, oy, octant, row, col + 1) == RowCells(m, ox, oy, octant, row, col))
      && (InBounds(m, c) ==>
            tiles + RowCells(m, ox, oy, octant, row, col) + {c} == tiles + RowCells(m, ox, oy, octant, row, col + 1))
      && (InBounds(m, c) && c in walls ==> RowCells(m, ox, oy, octant, row, col + 1) * walls != {})
      && (InBounds(m, c) && c !in walls && RowCells(m, ox, oy, octant, row, col) * walls == {} ==>
            RowCells(m, ox, oy, octant, row, col + 1) * walls == {})
  {
    var c := OctantCell(ox, oy, octant, row, col);
    if InBounds(m, c) && c in walls {
      assert c in RowCells(m, ox, oy, octant, row, col + 1) * walls;
    }
  }

  /** One row of `_refresh_octant`'s scan (columns 0..row), on a shadow line
      that is still empty: every in-bounds cell is visible, and the first
      light-blocking one makes `add` raise IndexError. */
  method ScanRow(m: FovMap, octant: int, ox: int, oy: int, row: int,
                 line: ShadowLine, fullShadow: bool, tiles: set<Cell>, walls: set<Cell>)
    returns (r: Result<set<Cell>>, full: bool)
    requires 0 <= octant < 8 && row >= 1
    requires line.shadows == [] && !fullShadow
    modifies line
    ensures r.Ok? <==> RowCells(m, ox, oy, octant, row, row + 1) * walls == {}
    ensures r.Ok? ==> r.value == tiles + RowCells(m, ox, oy, octant, row, row + 1)
    ensures r.Ok? ==> line.shadows == [] && !full
    ensures r.Err? ==> r.error == IndexError
  {
    full := fullShadow;
    var visible := tiles;
    var col := 0;
    while col <= row
      invariant 0 <= col <= row + 1
      invariant line.shadows == [] && !full
      invariant visible == tiles + RowCells(m, ox, oy, octant, row, col)
      invariant RowCells(m, ox, oy, octant, row, col) * walls == {}
    {
      var offset := TransformOctant(row, col, octant).value;
      var absX, absY := ox + offset.0, oy + offset.1;
      assert (absX, absY) == OctantCell(ox, oy, octant, row, col);
      NextColumn(m, ox, oy, octant, row, col, tiles, walls);
      if !(0 <= absX < m.width && 0 <= absY < m.height) {
        col := col + 1;
        continue;
      }
      if full {
        col := col + 1;
        continue;
      }
      var projection := ProjectTile(row, col);
      var inShadow := line.IsInShadow(projection);
      if !inShadow {
        visible := visible + {(absX, absY)};
        if (absX, absY) in walls {
          AddToEmptyFails(projection);
          var outcome := line.Add(projection);
          if outcome.Pass? {
            // `add` on the empty line always raises, so the following
            // `is_full_shadow()` update is never reached.
            assert false;
          }
          RowCellsGrow(m, ox, oy, octant, row, col + 1, row + 1);
          return Err(outcome.error), full;
        }
      }
      col := col + 1;
    }
    return Ok(visible), full;
  }

  /** `_refresh_octant`: scans rows 1..radius of one octant, adding every
      visible in-bounds cell to `visible`. Since the shadow line starts empty,
      nothing is in shadow until the first light-blocking cell, whose `add`
      raises IndexError. */
  method RefreshOctant(m: FovMap, octant: int, ox: int, oy: int, radius: int,
                       visible: set<Cell>, walls: set<Cell>)
    returns (r: Result<set<Cell>>)
    requires 0 <= octant < 8
    ensures r.Ok? <==> OctantCells(m, ox, oy, octant, radius) * walls == {}
    ensures r.Ok? ==> r.value == visible + OctantCells(m, ox, oy, octant, radius)
    ensures r.Err? ==> r.error == IndexError
  {
    var line := new ShadowLine();
    var fullShadow := false;
    var tiles := visible;
    var row := 1;
    while row <= radius
      invariant 1 <= row <= (if radius >= 1 then radius + 1 else 1)
      invariant line.shadows == [] && !fullShadow
      invariant tiles == visible + OctantCells(m, ox, oy, octant, row - 1)
      invariant OctantCells(m, ox, oy, octant, row - 1) * walls == {}
    {
      var scanned;
      scanned, fullShadow := ScanRow(m, octant, ox, oy, row, line, fullShadow, tiles, walls);
      if scanned.Err? {
        OctantCellsGrow(m, ox, oy, octant, row, radius);
        return scanned;
      }
      tiles := scanned.value;
      row := row + 1;
    }
    if radius < 1 {
      assert OctantCells(m, ox, oy, octant, radius) == {};
    }
    return Ok(tiles);
  }

  /** `calculate_fov(map, origin_x, origin_y, radius)`: raises IndexError
      exactly when some in-bounds light-blocking cell lies at Chebyshev
      distance 1..radius; otherwise returns the origin plus every in-bounds
      cell within that distance. */
  method CalculateFov(m: FovMap, ox: int, oy: int, radius: int) returns (r: Result<set<Cell>>)
    ensures r.Ok? <==> Ring(m, ox, oy, radius) * Walls(m) == {}
    ensures r.Ok? ==> r.value == {(ox, oy)} + Ring(m, ox, oy, radius)
    ensures r.Err? ==> r.error == IndexError
    ensures radius <= 0 ==> r == Ok({(ox, oy)})
  {
    var tiles: set<Cell> := {(ox, oy)};
    var walls := set o | o in m.objects && o.blocksLight :: (o.x, o.y);
    assert walls == Walls(m);
    var octant := 0;
    while octant < 8
      invariant 0 <= octant <= 8
      invariant tiles == {(ox, oy)} + AllOctantCells(m, ox, oy, octant, radius)
      invariant AllOctantCells(m, ox, oy, octant, radius) * walls == {}
    {
      var step := RefreshOctant(m, octant, ox, oy, radius, tiles, walls);
      if step.Err? {
        BlockedOctantBlocksRing(m, ox, oy, octant, radius);
        return Err(step.error);
      }
      NextOctant(m, ox, oy, octant, radius, walls);
      tiles := step.value;
      octant := octant + 1;
    }
    AllOctantsAreRing(m, ox, oy, radius);
    EmptyRing(m, ox, oy, radius);
    return Ok(tiles);
  }

  /** Adding octant `octant`'s cells to the first `octant` octants gives
      the first `octant + 1`. */
  lemma NextOctant(m: FovMap, ox: int, oy: int, octant: int, radius: int, walls: set<Cell>)
    requires 0 <= octant < 8
    ensures {(ox, oy)} + AllOctantCells(m, ox, oy, octant, radius) + OctantCells(m, ox, oy, octant, radius)
            == {(ox, oy)} + AllOctantCells(m, ox, oy, octant + 1, radius)
    ensures AllOctantCells(m, ox, oy, octant, radius) * walls == {} && OctantCells(m, ox, oy, octant, radius) * walls == {}
            ==> AllOctantCells(m, ox, oy, octant + 1, radius) * walls == {}
  {
  }

  /** A wall in one octant's rows is a wall on the ring. */
  lemma BlockedOctantBlocksRing(m: FovMap, ox: int, oy: int, octant: int, radius: int)
    requires 0 <= octant < 8
    requires OctantCells(m, ox, oy, octant, radius) * Walls(m) != {}
    ensures Ring(m, ox, oy, radius) * Walls(m) != {}
  {
    AllOctantsSubsume(m, ox, oy, octant, radius);
    AllOctantsAreRing(m, ox, oy, radius);
  }

  lemma EmptyRing(m: FovMap, ox: int, oy: int, radius: int)
    ensures radius <= 0 ==> Ring(m, ox, oy, radius) == {}
  {
  }

  lemma {:induction false} AllOctantsSubsume(m: FovMap, ox: int, oy: int, octant: int, rows: int)
    requires 0 <= octant < 8
    ensures OctantCells(m, ox, oy, octant, rows) <= AllOctantCells(m, ox, oy, 8, rows)
  {
    var n := 8;
    while n > octant + 1
      invariant octant + 1 <= n <= 8
      invariant AllOctantCells(m, ox, oy, n, rows) <= AllOctantCells(m, ox, oy, 8, rows)
    {
      n := n - 1;
    }
  }
}

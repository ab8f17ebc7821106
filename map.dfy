/** `Map` (src/map.py): a named grid of cells. */
module Maps {

  datatype Map = Map(name: string, width: int, height: int, grid: seq<seq<string>>)

  /** `range(n)` has no elements for n <= 0. */
  function RangeLength(n: int): nat {
    if n < 0 then 0 else n
  }

  /** A `height` x `width` grid of '.' cells. */
  function BlankGrid(width: int, height: int): seq<seq<string>> {
    seq(RangeLength(height), _ => seq(RangeLength(width), _ => "."))
  }

  /** `Map(name, width, height, grid)` with `__post_init__`: an empty grid is
      replaced by `height` rows of `width` '.' cells, a non-empty grid is kept
      as given; name and sizes are stored as given. */
  function NewMap(name: string, width: int, height: int, grid: seq<seq<string>>): (m: Map)
    ensures m.name == name && m.width == width && m.height == height
    ensures grid != [] ==> m.grid == grid
    ensures grid == [] ==> |m.grid| == RangeLength(height)
    ensures grid == [] ==> forall i | 0 <= i < |m.grid| :: |m.grid[i]| == RangeLength(width)
    ensures grid == [] ==> forall i, j | 0 <= i < |m.grid| && 0 <= j < |m.grid[i]| :: m.grid[i][j] == "."
  {
    Map(name, width, height, if grid == [] then BlankGrid(width, height) else grid)
  }

  /** A map built without a grid has exactly width * height cells when both
      sizes are positive, and none otherwise. */
  lemma BlankGridSize(name: string, width: int, height: int)
    ensures var g := NewMap(name, width, height, []).grid;
      (height <= 0 ==> g == []) && (width <= 0 ==> forall i | 0 <= i < |g| :: g[i] == [])
  {
  }
}

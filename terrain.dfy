/** Terrain generation: the threshold classification of a per-cell noise value and
    the construction of the fresh GRID_SIZE x GRID_SIZE grid of tiles.
    The noise itself is floating point and is not modelled: it is a parameter. */
module Terrain {

  import opened Options

  /** Side length of the square game grid. */
  const GRID_SIZE: nat := 15

  /** Noise below this value is water. */
  const WATER_LEVEL: real := 0.3

  /** Noise at or above this value is mountain; in between is grass. */
  const MOUNTAIN_LEVEL: real := 0.9

  datatype Terrain = Water | Grass | Mountain

  /** One cell of the grid: its terrain, the unit standing on it (absent when the
      source stores null) and whether it is the selected tile. */
  datatype Tile = Tile(terrain: Terrain, unit: Option<string>, isSelected: bool)

  type Grid = seq<seq<Tile>>

  /** The per-cell noise of one map, already bound to its seed. */
  type Noise = (int, int) -> real

  /** The terrain the noise value `v` falls into. */
  function Classify(v: real): Terrain
  {
    if v < WATER_LEVEL then Water
    else if v < MOUNTAIN_LEVEL then Grass
    else Mountain
  }

  /** The band of noise values that belongs to each terrain. */
  predicate InBand(t: Terrain, v: real)
  {
    match t
    case Water => v < WATER_LEVEL
    case Grass => WATER_LEVEL <= v < MOUNTAIN_LEVEL
    case Mountain => MOUNTAIN_LEVEL <= v
  }

  /** The three bands partition the reals, and Classify picks the band the value
      lies in: a terrain is the classification exactly when the value is in its band. */
  lemma ClassifyPicksTheOnlyBand(v: real, t: Terrain)
    ensures InBand(t, v) <==> t == Classify(v)
  {
  }

  /** Classification never goes down as the noise goes up: water lies below grass
      and grass below mountain. */
  function Height(t: Terrain): nat
  {
    match t
    case Water => 0
    case Grass => 1
    case Mountain => 2
  }

  lemma ClassifyMonotone(v: real, w: real)
    requires v <= w
    ensures Height(Classify(v)) <= Height(Classify(w))
  {
  }

  /** A tile as the generator creates it: no unit and not selected. */
  function FreshTile(t: Terrain): Tile
  {
    Tile(t, None, false)
  }

  /** `g` is a square grid of side GRID_SIZE. */
  ghost predicate IsSquare(g: Grid)
  {
    |g| == GRID_SIZE && forall i :: 0 <= i < |g| ==> |g[i]| == GRID_SIZE
  }

  /** `g` is the map the generator builds from `noise`: square, and every cell
      is a fresh tile whose terrain is classified from that cell's noise alone. */
  ghost predicate IsNoiseMap(g: Grid, noise: Noise)
  {
    IsSquare(g) &&
    forall i, j :: 0 <= i < GRID_SIZE && 0 <= j < GRID_SIZE ==>
      g[i][j] == FreshTile(Classify(noise(i, j)))
  }

  /** Builds the grid row by row, as the source does with two nested loops. */
  method GenerateNoiseMap(noise: Noise) returns (grid: Grid)
    ensures IsNoiseMap(grid, noise)
  {
    grid := [];
    var i := 0;
    while i < GRID_SIZE
      invariant 0 <= i <= GRID_SIZE
      invariant |grid| == i
      invariant forall k :: 0 <= k < i ==> |grid[k]| == GRID_SIZE
      invariant forall k, j :: 0 <= k < i && 0 <= j < GRID_SIZE ==>
        grid[k][j] == FreshTile(Classify(noise(k, j)))
    {
      var row: seq<Tile> := [];
      var j := 0;
      while j < GRID_SIZE
        invariant 0 <= j <= GRID_SIZE
        invariant |row| == j
        invariant forall m :: 0 <= m < j ==> row[m] == FreshTile(Classify(noise(i, m)))
      {
        var value := noise(i, j);
        var terrain := Classify(value);
        row := row + [FreshTile(terrain)];
        j := j + 1;
      }
      grid := grid + [row];
      i := i + 1;
    }
  }

  /** Generation is deterministic: the same noise (the same seed) gives the same grid. */
  lemma NoiseMapIsDetermined(g1: Grid, g2: Grid, noise: Noise)
    requires IsNoiseMap(g1, noise) && IsNoiseMap(g2, noise)
    ensures g1 == g2
  {
    forall i | 0 <= i < GRID_SIZE
      ensures g1[i] == g2[i]
    {
      assert |g1[i]| == |g2[i]| == GRID_SIZE;
      forall j | 0 <= j < GRID_SIZE
        ensures g1[i][j] == g2[i][j]
      {
      }
    }
  }

  /** A generated map carries no unit and no selection anywhere. */
  lemma NoiseMapIsBlank(g: Grid, noise: Noise, i: int, j: int)
    requires IsNoiseMap(g, noise)
    requires 0 <= i < GRID_SIZE && 0 <= j < GRID_SIZE
    ensures g[i][j].unit == None && !g[i][j].isSelected
    ensures InBand(g[i][j].terrain, noise(i, j))
  {
  }
}

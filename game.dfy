/** The game state controller: the grid, the turn counter and the selected-tile
    snapshot, with the two transitions the player triggers (clicking a tile and
    ending the turn). The transitions are given as functions on GameState values;
    the GameController class holds the same three fields and its methods are proved
    to perform exactly those transitions. */
module Game {

  import opened Options
  import opened Terrain

  /** The view of the last clicked tile: its coordinates and the terrain it had
      when it was clicked. */
  datatype Snapshot = Snapshot(row: int, col: int, terrain: Terrain)

  datatype GameState = GameState(grid: Grid, turn: nat, selectedTile: Option<Snapshot>)

  /** The full-grid rewrite of a click: every tile is copied with its selection
      flag set exactly when it sits at (row, col). It is total, like the nested
      map it models; coordinates outside the grid select no tile at all. */
  function SelectAll(g: Grid, row: int, col: int): (r: Grid)
    ensures |r| == |g|
    ensures forall i :: 0 <= i < |g| ==> |r[i]| == |g[i]|
    ensures forall i, j :: 0 <= i < |g| && 0 <= j < |g[i]| ==>
      r[i][j].terrain == g[i][j].terrain && r[i][j].unit == g[i][j].unit
    ensures forall i, j :: 0 <= i < |g| && 0 <= j < |g[i]| ==>
      (r[i][j].isSelected <==> i == row && j == col)
  {
    seq(|g|, i requires 0 <= i < |g| =>
      seq(|g[i]|, j requires 0 <= j < |g[i]| =>
        g[i][j].(isSelected := i == row && j == col)))
  }

  /** The coordinates of every selected tile of `g`. */
  ghost function SelectedCells(g: Grid): set<(int, int)>
  {
    set i, j | 0 <= i < |g| && 0 <= j < |g[i]| && g[i][j].isSelected :: (i, j)
  }

  /** Two grids that agree on everything but the selection flags. */
  ghost predicate SameBoard(g: Grid, h: Grid)
  {
    |g| == |h| &&
    (forall i :: 0 <= i < |g| ==> |g[i]| == |h[i]|) &&
    forall i, j :: 0 <= i < |g| && 0 <= j < |g[i]| ==>
      g[i][j].terrain == h[i][j].terrain && g[i][j].unit == h[i][j].unit
  }

  /** After a click inside the grid exactly the clicked tile is selected,
      whatever was selected before. */
  lemma SelectLeavesExactlyOne(g: Grid, row: int, col: int)
    requires 0 <= row < |g| && 0 <= col < |g[row]|
    ensures SelectedCells(SelectAll(g, row, col)) == {(row, col)}
  {
    var r := SelectAll(g, row, col);
    assert (row, col) in SelectedCells(r) by {
      assert r[row][col].isSelected;
    }
  }

  /** The rewrite on coordinates outside the grid clears every selection. */
  lemma SelectOutsideLeavesNone(g: Grid, row: int, col: int)
    requires !(0 <= row < |g| && 0 <= col < |g[row]|)
    ensures SelectedCells(SelectAll(g, row, col)) == {}
  {
  }

  /** The rewrite changes nothing but selection flags. */
  lemma SelectKeepsBoard(g: Grid, row: int, col: int)
    ensures SameBoard(SelectAll(g, row, col), g)
    ensures IsSquare(g) ==> IsSquare(SelectAll(g, row, col))
  {
  }

  /** Selecting again forgets the previous selection: only the last click counts. */
  lemma SelectOverridesPrevious(g: Grid, r1: int, c1: int, r2: int, c2: int)
    ensures SelectAll(SelectAll(g, r1, c1), r2, c2) == SelectAll(g, r2, c2)
  {
    var a := SelectAll(SelectAll(g, r1, c1), r2, c2);
    var b := SelectAll(g, r2, c2);
    forall i | 0 <= i < |g|
      ensures a[i] == b[i]
    {
      assert |a[i]| == |b[i]|;
      forall j | 0 <= j < |g[i]|
        ensures a[i][j] == b[i][j]
      {
      }
    }
  }

  /** The state at start-up: the generated grid, turn 0 and no selection. */
  function Initial(g: Grid): GameState
  {
    GameState(g, 0, None)
  }

  /** The state after the player clicks tile (row, col): the rewritten grid, and a
      snapshot whose terrain is read from the grid as it was before the click. */
  function Clicked(s: GameState, row: int, col: int): GameState
    requires 0 <= row < |s.grid| && 0 <= col < |s.grid[row]|
  {
    GameState(SelectAll(s.grid, row, col), s.turn,
              Some(Snapshot(row, col, s.grid[row][col].terrain)))
  }

  /** The state after the player ends the turn. */
  function TurnEnded(s: GameState): GameState
  {
    s.(turn := s.turn + 1)
  }

  /** The state after the player ends the turn `n` times in a row. */
  function TurnsEnded(s: GameState, n: nat): GameState
  {
    if n == 0 then s else TurnEnded(TurnsEnded(s, n - 1))
  }

  /** The invariant the controller keeps: the grid is square, and the snapshot and
      the selection flags agree. With no snapshot no tile is selected; with one,
      exactly the snapshot's tile is selected and still has the recorded terrain. */
  ghost predicate Valid(s: GameState)
  {
    IsSquare(s.grid) &&
    match s.selectedTile
    case None => SelectedCells(s.grid) == {}
    case Some(t) =>
      0 <= t.row < GRID_SIZE && 0 <= t.col < GRID_SIZE &&
      SelectedCells(s.grid) == {(t.row, t.col)} &&
      s.grid[t.row][t.col].terrain == t.terrain
  }

  /** The start-up state over a generated map satisfies the invariant. */
  lemma InitialIsValid(g: Grid, noise: Noise)
    requires IsNoiseMap(g, noise)
    ensures Valid(Initial(g))
  {
  }

  /** A click inside the grid selects exactly the clicked tile, keeps every tile's
      terrain and unit and the turn, and records the clicked tile's coordinates
      and terrain. */
  lemma ClickSelectsOnlyTarget(s: GameState, row: int, col: int)
    requires 0 <= row < |s.grid| && 0 <= col < |s.grid[row]|
    ensures SelectedCells(Clicked(s, row, col).grid) == {(row, col)}
    ensures SameBoard(Clicked(s, row, col).grid, s.grid)
    ensures Clicked(s, row, col).turn == s.turn
    ensures Clicked(s, row, col).selectedTile ==
      Some(Snapshot(row, col, Clicked(s, row, col).grid[row][col].terrain))
  {
    SelectLeavesExactlyOne(s.grid, row, col);
  }

  /** Clicking keeps the invariant. */
  lemma ClickKeepsValid(s: GameState, row: int, col: int)
    requires Valid(s)
    requires 0 <= row < GRID_SIZE && 0 <= col < GRID_SIZE
    ensures Valid(Clicked(s, row, col))
  {
    SelectLeavesExactlyOne(s.grid, row, col);
  }

  /** Clicking the same tile twice gives the same grid and snapshot as once. */
  lemma ClickIsIdempotent(s: GameState, row: int, col: int)
    requires 0 <= row < |s.grid| && 0 <= col < |s.grid[row]|
    ensures Clicked(Clicked(s, row, col), row, col) == Clicked(s, row, col)
  {
    SelectOverridesPrevious(s.grid, row, col, row, col);
  }

  /** The outcome of a click does not depend on which tile was clicked before. */
  lemma ClickForgetsPrevious(s: GameState, r1: int, c1: int, r2: int, c2: int)
    requires 0 <= r1 < |s.grid| && 0 <= c1 < |s.grid[r1]|
    requires 0 <= r2 < |s.grid| && 0 <= c2 < |s.grid[r2]|
    ensures Clicked(Clicked(s, r1, c1), r2, c2) == Clicked(s, r2, c2)
  {
    SelectOverridesPrevious(s.grid, r1, c1, r2, c2);
  }

  /** Ending the turn keeps the invariant. */
  lemma TurnEndedKeepsValid(s: GameState)
    requires Valid(s)
    ensures Valid(TurnEnded(s))
  {
  }

  /** Ending the turn `n` times adds exactly `n` to the counter and changes
      nothing else. */
  lemma {:induction false} TurnsEndedCounts(s: GameState, n: nat)
    ensures TurnsEnded(s, n) == s.(turn := s.turn + n)
  {
    if n > 0 {
      TurnsEndedCounts(s, n - 1);
    }
  }

  /** From start-up, the counter after `n` ended turns is `n`. */
  lemma TurnAfterStartIsCount(g: Grid, n: nat)
    ensures TurnsEnded(Initial(g), n).turn == n
    ensures TurnsEnded(Initial(g), n).grid == g
    ensures TurnsEnded(Initial(g), n).selectedTile == None
  {
    TurnsEndedCounts(Initial(g), n);
  }

  /** The controller: the three pieces of state the source keeps, replaced
      atomically by each handler. */
  class GameController {
    var grid: Grid
    var turn: nat
    var selectedTile: Option<Snapshot>

    ghost function State(): GameState
      reads this
    {
      GameState(grid, turn, selectedTile)
    }

    ghost predicate IsValid()
      reads this
    {
      Valid(State())
    }

    /** Start-up: generate the map from the seed's noise, turn 0, nothing selected. */
    constructor (noise: Noise)
      ensures IsValid()
      ensures IsNoiseMap(grid, noise)
      ensures State() == Initial(grid)
    {
      var g := GenerateNoiseMap(noise);
      InitialIsValid(g, noise);
      grid := g;
      turn := 0;
      selectedTile := None;
    }

    /** The player clicks tile (row, col). */
    method HandleTileClick(row: int, col: int)
      requires IsValid()
      requires 0 <= row < GRID_SIZE && 0 <= col < GRID_SIZE
      modifies this
      ensures IsValid()
      ensures State() == Clicked(old(State()), row, col)
    {
      ClickKeepsValid(State(), row, col);
      var newGrid := SelectAll(grid, row, col);
      var before: Grid := grid;
      grid := newGrid;
      var tile: Tile := before[row][col];
      selectedTile := Some(Snapshot(row, col, tile.terrain));
    }

    /** The player ends the turn. */
    method EndTurn()
      requires IsValid()
      modifies this`turn
      ensures IsValid()
      ensures State() == TurnEnded(old(State()))
    {
      turn := turn + 1;
    }
  }
}

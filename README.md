# Browser Civilization: terrain generation and game state, in Dafny

This project models the state core of the Browser Civilization prototype
(`src/App.jsx`): a turn-based strategy game played on a 15 x 15 grid of
terrain tiles.

- **Terrain generation** (module `Terrain`, `terrain.dfy`). `generateNoiseMap`
  builds the grid row by row with two nested loops. Each cell's noise value is
  classified by two thresholds: below 0.3 is water, below 0.9 is grass, and the
  rest is mountain. Each cell becomes a fresh tile with no unit and not selected.
  The noise is an input here: `GenerateNoiseMap` takes the per-cell noise as a
  function `(int, int) -> real`, which stands for `randomNoise` already bound to
  its seed.
- **Game state controller** (module `Game`, `game.dfy`). The controller holds
  `grid`, `turn` and `selectedTile`.
  - A tile click rewrites the whole grid so that only the clicked tile is
    selected. It then records `{row, col, terrain}` from the grid as it was
    before the rewrite.
  - Ending the turn adds one to the counter.

  Both transitions are written as functions on `GameState` values
  (`Clicked`, `TurnEnded`). The `GameController` class holds the same three
  fields, and its methods are proved to perform exactly those transitions.
  `Valid` is the invariant the controller keeps:
  - the grid is square;
  - with no snapshot, no tile is selected;
  - with a snapshot, exactly the snapshot's tile is selected, and it still has
    the recorded terrain.
- `options.dfy` holds the `Option` type, used where the source stores `null`.

The source does not check bounds when a tile is clicked. For a row outside the
grid, `grid[row][col]` at src/App.jsx:53 throws. The click handler therefore
requires `0 <= row, col < GRID_SIZE`. Its only caller, the rendered grid, always
passes coordinates inside the grid. The grid rewrite itself (`SelectAll`, the
nested `map`) is total. Its out-of-range behaviour is stated in
`SelectOutsideLeavesNone`: it clears every selection.

## Model

| member | source | states |
|---|---|---|
| `Terrain.ClassifyPicksTheOnlyBand` | src/App.jsx:18-26 | the water (< 0.3), grass (0.3 to 0.9) and mountain (>= 0.9) bands partition the noise values; a terrain is the classification of a value exactly when the value lies in that terrain's band |
| `Terrain.ClassifyMonotone` | src/App.jsx:20-26 | a higher noise value never gives a lower terrain (water below grass below mountain) |
| `Terrain.GenerateNoiseMap` | src/App.jsx:14-35 | the loops build exactly GRID_SIZE rows of GRID_SIZE tiles; tile (i, j) is a fresh tile whose terrain is classified from noise(i, j) alone |
| `Terrain.NoiseMapIsDetermined` | src/App.jsx:8-36 | generation is deterministic: two grids generated from the same noise (the same seed) are equal |
| `Terrain.NoiseMapIsBlank` | src/App.jsx:27-31 | every generated tile has no unit, is not selected, and has the terrain of its noise band |
| `Game.SelectAll` | src/App.jsx:46-51 | the click rewrite keeps the grid's shape and every tile's terrain and unit; a tile is selected exactly when it is at the clicked coordinates |
| `Game.SelectLeavesExactlyOne` | src/App.jsx:46-51 | after a click inside the grid, the set of selected cells is exactly the clicked one |
| `Game.SelectOutsideLeavesNone` | src/App.jsx:46-51 | the rewrite applied to coordinates outside the grid leaves no tile selected |
| `Game.SelectKeepsBoard` | src/App.jsx:46-50 | the rewrite changes only selection flags and keeps a square grid square |
| `Game.SelectOverridesPrevious` | src/App.jsx:46-51 | rewriting for (r1, c1) and then for (r2, c2) gives the same grid as rewriting for (r2, c2) alone |
| `Game.InitialIsValid` | src/App.jsx:39-42 | the start-up state (generated grid, turn 0, no snapshot) satisfies the controller invariant |
| `Game.ClickSelectsOnlyTarget` | src/App.jsx:45-59 | a click selects only the clicked tile, keeps terrain, units and turn, and records a snapshot whose coordinates and terrain match the clicked tile |
| `Game.ClickKeepsValid` | src/App.jsx:45-59 | a click inside the grid keeps the controller invariant (square grid, snapshot and selection flags agree) |
| `Game.ClickIsIdempotent` | src/App.jsx:46-59 | clicking the same tile twice gives the same grid and snapshot as clicking it once |
| `Game.ClickForgetsPrevious` | src/App.jsx:46-59 | the state after a click does not depend on which tile was clicked just before |
| `Game.TurnEndedKeepsValid` | src/App.jsx:63-66 | ending the turn keeps the controller invariant |
| `Game.TurnsEndedCounts` | src/App.jsx:63-66 | ending the turn n times adds exactly n to the counter and leaves grid and snapshot unchanged |
| `Game.TurnAfterStartIsCount` | src/App.jsx:63-66 | starting from turn 0, the counter after n ended turns is n, and the generated grid and the empty selection are unchanged |
| `Game.GameController.constructor` | src/App.jsx:39-42 | start-up generates the map from the seed's noise, sets turn 0 and no selected tile, and establishes the invariant |
| `Game.GameController.HandleTileClick` | src/App.jsx:45-60 | the new state is `Clicked` of the old one: the grid is rewritten and the snapshot is taken from the pre-click tile; the invariant is kept |
| `Game.GameController.EndTurn` | src/App.jsx:63-66 | the new state is the old one with the turn increased by one and nothing else changed; the invariant is kept |

## Left out

- The noise function (`Math.sin`, `* 10000 % 1` and `Math.abs` on IEEE doubles, src/App.jsx:9-12) is floating point. It is a parameter of the model. For the same reason the model does not claim that the noise lies in [0, 1).
- The seed drawn with `Math.random()` (src/App.jsx:39) is a nondeterministic foreign call. The constructor takes the noise bound to that seed as input.
- JSX rendering (`renderGrid` and the returned markup, src/App.jsx:69-105) is presentation.
- `console.log` diagnostics (src/App.jsx:55, 57, 64) are cosmetic output. The unit/empty-tile branch at src/App.jsx:54-58 has no other effect on state.
- React's `useState` setters and render scheduling are framework plumbing. State is modelled as plain fields, replaced atomically by each handler.
- Game.GameController.HandleTileClick: requires the clicked coordinates to lie inside the grid. For a row outside the grid the source throws at src/App.jsx:53, and that behaviour is not modelled.
- Settler movement, city founding and unit production are not part of `src/App.jsx`. They are not part of this model.

# Multiplayer tic-tac-toe and battleship — a verified model of the game logic

The application lets signed-in users play tic-tac-toe and battleship against
each other. Rows live in a synchronised store, and clients change them only
through named mutators.

The project models:

- **the tic-tac-toe mutators** (`src/shared/mutators.ts`): `createGame`,
  `joinGame`, `makeMove`, `resetGame` and the `checkWinner` helper;
- **the tic-tac-toe board component** (`src/ui/game-board.tsx`): the turn
  test, the guard that decides whether a click is sent to `makeMove`, and
  the status line;
- **the lobby's text helpers** (`src/ui/game-lobby.tsx`): `formatTimeAgo`
  and `getGameStatusText`;
- **the battleship grid component** (`src/ui/battleship-board.tsx`): the
  state and glyph of a cell, the hover preview of a ship being placed, and
  what a click asks for;
- **the battleship match screen** (`src/ui/battleship-game.tsx`): the ship
  catalog, placing the fleet one ship per click, the attack guard and the
  status line.

Layout:

- `wrappers.dfy`: `Option` and `Result`.
- `text.dfy`: decimal rendering of naturals, as template literals print
  them, with a proof that the rendering reads back.
- `mutators.dfy` (module `Mutators`):
  - the game row, with the board as nine cells;
  - the winner check;
  - one pure *decision function* per mutator (`Create`, `Join`, `Move`,
    `Reset`). Each one either gives the error the mutator throws, in source
    order, or gives the row it writes;
  - `GameInvariant`, which holds for every row the mutators can produce, and
    a proof that each mutator preserves it.
- `game_store.dfy` (module `GameStore`):
  - the `game` table as a class whose `games` map the four mutator methods
    update in place;
  - each method's body is the mutator's imperative code, proved equal to its
    decision function;
  - `Valid()`, which says every stored row satisfies `GameInvariant`. The
    invariant holds for every row play reaches, and for some rows it never
    reaches.
- `game_board.dfy`, `game_lobby.dfy`, `battleship_board.dfy` and
  `battleship_game.dfy` cover the components named above:
  - `HandleCellHover` keeps the source's two `for` loops;
  - the fleet being placed is a class (`FleetPlacement`) whose fields are
    the screen's `placingShipIndex` and `placedShips` state.

Calls into the store and into other components are returned as values:
the row written, the error thrown, the `onShipPlace` / `onCellClick` /
`makeBattleshipGuess` call made.

## Model

| member | source | states |
|---|---|---|
| Mutators.MessagesDistinct | src/shared/mutators.ts:24-108 | Each error thrown has a non-empty message, and no two distinct errors share one. |
| Mutators.CheckWinnerFrom | src/shared/mutators.ts:12-17 | From table entry k on, the result is the mark of the first complete line; it is none exactly when no remaining line is complete. |
| Mutators.CheckWinner | src/shared/mutators.ts:5-18 | A returned mark owns a complete line; null is returned exactly when no line is complete. |
| Mutators.EmptyBoardHasNoWinner | src/shared/mutators.ts:30 | The fresh nine-null board has no winner and is not full. |
| Mutators.CountAfterPlace | src/shared/mutators.ts:78 | Writing a mark into an empty cell adds one of that mark and changes no other mark's count. |
| Mutators.Create | src/shared/mutators.ts:23-37 | Fails with "Not authenticated" exactly when there is no session. Otherwise the row has the caller as player 1, no player 2, an empty board, X to move, waiting status and no winner; an empty or missing invite code is stored as null, any other code as given. |
| Mutators.CreateEstablishesInvariant | src/shared/mutators.ts:23-37 | A created row satisfies the game invariant. |
| Mutators.Join | src/shared/mutators.ts:41-55 | Each error comes in source order under its exact condition. Success happens iff there is a session, the row exists, it is waiting, the caller is not player 1 and no player 2 is set; then only player 2 (the caller) and status (active) change. |
| Mutators.JoinPreservesInvariant | src/shared/mutators.ts:41-55 | Joining a row that satisfies the invariant gives a row that satisfies it. |
| Mutators.Move | src/shared/mutators.ts:59-97 | Every error comes under its exact condition and in check order. Success happens iff all checks pass. Then exactly one cell changes, from empty to the mover's mark; the turn passes; players and invite code are kept. Status is finished iff a line is complete or the board is full. A recorded mark owns a line. "draw" iff the board is full without a line. No winner iff still active. |
| Mutators.WinnerOfMoveIsMover | src/shared/mutators.ts:78-81 | On a board without a line, any winner found after placing a mark is that mark. |
| Mutators.MovePreservesInvariant | src/shared/mutators.ts:75-96 | A move from a row that satisfies the invariant keeps it: X and O counts alternate, the turn follows the counts, the recorded winner made the last move, and the status agrees with the board. |
| Mutators.RecordedWinnerIsMover | src/shared/mutators.ts:72-94 | When a move records a winning mark, that mark is the one the caller just played. |
| Mutators.ActiveGameHasEmptyCell | src/shared/mutators.ts:82-87 | In a reachable game, an active board always has an empty cell, so the player to move is never stuck. |
| Mutators.Reset | src/shared/mutators.ts:100-117 | Each error comes under its exact condition. Success happens iff the row is finished and the caller is one of its players. The board is cleared, X moves, status becomes active and the winner null; players and invite code are kept. |
| Mutators.ResetPreservesInvariant | src/shared/mutators.ts:100-117 | Resetting a row that satisfies the invariant gives a row that satisfies it. |
| GameStore.Store.CreateGame | src/shared/mutators.ts:23-37 | Inserts the row decided by `Create` under the fresh id, or reports its error and writes nothing. Every stored row still satisfies the invariant. |
| GameStore.Store.JoinGame | src/shared/mutators.ts:41-56 | The imperative checks report exactly `Join`'s error. Otherwise they write exactly `Join`'s row; the table keeps the invariant. |
| GameStore.Store.MakeMove | src/shared/mutators.ts:59-97 | The checks, the in-place board write, the winner and draw tests and the update produce exactly `Move`'s error or row. The table keeps the invariant. |
| GameStore.Store.ResetGame | src/shared/mutators.ts:100-118 | Reports exactly `Reset`'s error or writes exactly its row; the table keeps the invariant. |
| GameBoard.MyTurnMeansActivePlayer | src/ui/game-board.tsx:22-27 | The client's turn test implies the game is active and the viewer is one of its players. |
| GameBoard.ClientGuardMatchesServer | src/ui/game-board.tsx:22-37 | For any reachable row, the click guard lets a click through iff `makeMove` would accept it. The mark written is the viewer's symbol: X for player 1, O otherwise. |
| GameBoard.GuardNeedsDistinctSeats | src/ui/game-board.tsx:22-34 | An example: for an active row with one user in both seats and O to move, the guard sends a click on an empty cell, and the server rejects it with "Not your turn". The mutators never write such a row. |
| GameBoard.StatusLine | src/ui/game-board.tsx:51-78 | Gives the text for waiting, draw, each winning mark (the seat's name, or "Unknown"), my turn, and the opponent's turn (their name, or "Opponent"). It is blank exactly for a finished game with no winner. |
| GameBoard.StatusLineNeverBlank | src/ui/game-board.tsx:51-78 | For every reachable row the status line is non-empty. |
| GameLobby.MinutesBetween | src/ui/game-lobby.tsx:52 | The elapsed milliseconds rounded down to whole minutes, as `Math.floor` does. |
| GameLobby.AgeOf | src/ui/game-lobby.tsx:49-58 | Picks the unit by the elapsed time: "just now" under one minute (and for future times), minutes under an hour, hours under a day, days beyond. Each count is the elapsed time rounded down to its unit, within that unit's range. |
| GameLobby.FormatTimeAgo | src/ui/game-lobby.tsx:49-58 | The text is "Just now" exactly when less than a minute has elapsed. Otherwise it ends in "m ago" under an hour, "h ago" under a day, and "d ago" beyond. |
| GameLobby.FormatTimeAgoReadsBack | src/ui/game-lobby.tsx:55-57 | In every other text, the characters before the unit are exactly the count's decimal rendering, with no leading zero, and they read back as the unit's count. |
| Text.NatToStringRoundTrip | src/ui/game-lobby.tsx:55-57 | The decimal text of a count reads back as that count. |
| GameLobby.GameStatusText | src/ui/game-lobby.tsx:60-68 | Gives "Waiting for opponent" iff waiting, "In progress" iff active, and "Draw" iff finished as a draw. For any other finished game it gives "Winner: " followed by the winner column rendered by a template literal. |
| GameLobby.FinishedTextNamesAMark | src/ui/game-lobby.tsx:63-66 | For a reachable finished row the text is "Draw", "Winner: X" or "Winner: O", never "Winner: null". |
| BattleshipBoard.Find | src/ui/battleship-board.tsx:59 | `Array.prototype.find`: none iff no element matches; otherwise the first matching element. |
| BattleshipBoard.CellStateAt | src/ui/battleship-board.tsx:58-77 | A guess at the cell decides, giving the first such guess's result. Otherwise, on one's own board, the first covering ship gives sunk-ship or ship, and "empty" iff no ship covers the cell. Ship states never appear on the opponent board. |
| BattleshipBoard.OpponentBoardHidesShips | src/ui/battleship-board.tsx:64-74 | On the opponent board a cell's state does not depend on the ships, and every unguessed cell is empty. |
| BattleshipBoard.CoversIgnoresEndOrder | src/ui/battleship-board.tsx:65-70 | Swapping a ship's start and end does not change the cells it covers. |
| BattleshipBoard.CellContent | src/ui/battleship-board.tsx:111-126 | Blank iff the state is empty. The cross (×) appears iff the state is a "hit" guess, and the circle (○) iff it is a "miss" guess. The square glyph appears iff the state is an unsunk ship part. The skull appears iff the state is a sunk ship or a "sunk" guess. |
| BattleshipBoard.OpponentBoardNeverShowsShipGlyph | src/ui/battleship-board.tsx:111-126 | No cell of the opponent board shows the ship glyph. |
| BattleshipBoard.HandleCellHover | src/ui/battleship-board.tsx:128-149 | The two loops collect exactly the `Preview` cells. When no ship is being placed, nothing is set. |
| BattleshipBoard.PreviewUpToShape | src/ui/battleship-board.tsx:131-146 | After n loop steps, the cells are the first steps from the hovered cell along the orientation. Only those below the grid size are kept, and their number is the visible count. |
| BattleshipBoard.PreviewShape | src/ui/battleship-board.tsx:128-149 | The preview is never longer than the ship and never crosses the far edge. It is the whole ship when it fits. |
| BattleshipBoard.HandleCellClick | src/ui/battleship-board.tsx:151-171 | A disabled board does nothing. While placing, the ship is placed from the clicked cell only when its far end fits. Otherwise the click goes to `onCellClick` when given. A placement lies within the grid's far edges (both ends below size), along one row or column, and spans length-1. |
| BattleshipBoard.PlacementMatchesPreview | src/ui/battleship-board.tsx:128-171 | When a click places a ship, the hover preview was unclipped and ends at the ship's far end. Its cells are exactly the cells the placed ship covers. |
| BattleshipGame.ShipTypesMatchShipSizes | src/ui/battleship-game.tsx:12-18 | The placement catalog and the board's `SHIP_SIZES` (battleship-board.tsx:37-43) list the same five distinct kinds with the same lengths. |
| BattleshipGame.FleetPlacement.constructor | src/ui/battleship-game.tsx:30-39 | Placement starts at the first kind with no ships and nothing sent. |
| BattleshipGame.FleetPlacement.HandleShipPlace | src/ui/battleship-game.tsx:48-74 | Does nothing once all kinds are placed. Otherwise it appends one ship of the current catalog kind with the given ends, without an overlap check, and advances the index. The fleet is sent iff this was the last kind, and what is sent is all five ships. The invariant keeps one ship per kind in catalog order and records the fleet as sent exactly once, after the fifth ship. |
| BattleshipGame.PlacingProp | src/ui/battleship-game.tsx:170-180 | The own board gets a ship to place iff the phase is placing ships, this player has not placed, and kinds remain. It is the current catalog entry's kind and length in the chosen orientation, and that kind and length agree with `SHIP_SIZES`. |
| BattleshipGame.PlacedShipHasCatalogLength | src/ui/battleship-game.tsx:167-182 | When the own board places a ship from this prop, the ship spans exactly the current kind's catalog length. The preview ends at the ship's far end and shows exactly the cells the ship covers. |
| BattleshipGame.HandleGuess | src/ui/battleship-game.tsx:76-88 | A guess is sent iff it is my turn, an opponent exists and the phase is active. It goes from me to the opponent at the clicked cell in this room. |
| BattleshipGame.GuessComesFromTurnHolder | src/ui/battleship-game.tsx:45-82 | The attacker of any guess sent is the room's turn holder. |
| BattleshipGame.PhaseOf | src/ui/battleship-game.tsx:46 | Each of the four status texts gives its phase, and only that text does; any other text is kept as an unknown phase. |
| BattleshipGame.StatusLine | src/ui/battleship-game.tsx:116-136 | Gives the text for every case: waiting to join; the kind to place with its name and length, "Placing ships..." once none remain, or waiting for the opponent's ships; my turn or theirs; won iff the winner is me (lost otherwise); blank for an unknown phase. |

Definitions the rows above use, each modelling the cited source directly:

- `Mutators.Place` (src/shared/mutators.ts:78-94) is the row makeMove writes, stated by `Mutators.Move`.
- `Mutators.Message` (src/shared/mutators.ts:24-108) holds the thrown messages, stated by `Mutators.MessagesDistinct`.
- `GameBoard.IsMyTurn` (src/ui/game-board.tsx:22-27) is stated by `GameBoard.MyTurnMeansActivePlayer` and `GameBoard.ClientGuardMatchesServer`.
- `GameBoard.ClickSendsMove` (src/ui/game-board.tsx:32) is stated by `GameBoard.ClientGuardMatchesServer`.
- `BattleshipGame.IsMyTurn` (src/ui/battleship-game.tsx:45) is stated by `BattleshipGame.HandleGuess` and `BattleshipGame.GuessComesFromTurnHolder`.
- `BattleshipBoard.Covers` (src/ui/battleship-board.tsx:65-70) is stated by `BattleshipBoard.CellStateAt`, `BattleshipBoard.CoversIgnoresEndOrder` and `BattleshipBoard.PlacementMatchesPreview`.

## Left out

- Timestamps (`createdAt`, `updatedAt`, `Date.now()`) are not stored. Where
  a value depends on the clock (the lobby's age, the ship id), the time is a
  parameter.
- Random ids (`Math.random()` in the guess id) and the exact string
  formatting of ship ids are left out; a ship id is kept as its three parts.
- The board column is stored in the model as a sequence of nine cells rather
  than as JSON text. `JSON.parse`/`JSON.stringify` are taken to round-trip.
- `makeMove`'s `position` is an integer. A fractional JavaScript number is
  not modelled.
- GameStore.Store.CreateGame: requires an id not yet in the table. What the
  store's `insert` does with an existing id is not part of this model.
- Zero's transaction machinery, sync, queries and permissions are not
  modelled. A mutator is one atomic read-check-write on a map.
- The client's `try`/`catch` with `console.error` is left out. An error is
  returned as a value.
- BattleshipGame.FleetPlacement.HandleShipPlace: React's batched state
  updates and stale closures are not modelled. Each call sees the state the
  previous call left.
- The battleship server mutators (`placeBattleshipShips`,
  `makeBattleshipGuess`) are not part of this model. What the screen sends
  is modelled; the effect on the room is not.
- The grid `size` is a parameter of every board operation. The component's
  default of 10 is not fixed in the model.
- `getCellClass` (CSS classes), all JSX rendering, the gantt chart, the
  other screens and the configuration files are outside the model.
- The tic-tac-toe status column is modelled as the three values the mutators
  write. Under that model, the final `return ""` of `getGameStatusText` is
  unreachable. The battleship room status, whose writers are not part of
  this model, keeps an `OtherPhase` case for any other value. `PhaseOf`
  never builds that case from one of the four known texts.
- `if (game.player2Id)` is a truthiness test. An empty player id counts as
  unset there (`IsSet`), while `makeMove` compares ids for equality; the
  model keeps both tests as written.
- The lobby prints `Winner: null` for a finished row with a null
  winner, and the battleship status compares `winnerId` with the session's
  user id while the turn test uses the player id; both are kept as written.
- The battleship status emoji are the code points U+1F389 and U+1F622.

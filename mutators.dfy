/** The tic-tac-toe engine of src/shared/mutators.ts: the game row, the
    line check, and the decision each mutator takes on the row it reads.

    Each mutator reads at most one row, checks its conditions in a fixed
    order and either throws or writes one row back. Here a decision is a
    pure function from the caller's session and the row read (None when
    `one()` finds nothing) to a Result: the row to write, or the error.
    The class in game_store.dfy performs the read and the write. */
module Mutators {
  import opened Wrappers

  type UserId = string
  type GameId = string

  /** The two marks; the `currentPlayer` and `winner` columns hold their names. */
  datatype Symbol = X | O

  /** `currentSymbol === "X" ? "O" : "X"` */
  function Opponent(s: Symbol): (t: Symbol)
    ensures t != s
  {
    if s == X then O else X
  }

  /** A board cell: null or a mark. */
  type Cell = Option<Symbol>

  /** The board column: a JSON array of nine cells, row by row. */
  type Board = b: seq<Cell> | |b| == 9
    witness [None, None, None, None, None, None, None, None, None]

  /** `Array(9).fill(null)` */
  const EmptyBoard: Board := [None, None, None, None, None, None, None, None, None]

  type Pos = i: int | 0 <= i < 9

  /** The `status` column. Only the mutators below write it, and only these three values. */
  datatype Status = Waiting | Active | Finished

  /** The `winner` column: null, "X"/"O", or "draw". */
  datatype Winner = NoWinner | Won(symbol: Symbol) | Draw

  /** One row of the `game` table. Timestamps are left out: no decision reads them. */
  datatype Game = Game(
    player1: UserId,
    player2: Option<UserId>,
    board: Board,
    currentPlayer: Symbol,
    status: Status,
    winner: Winner,
    inviteCode: Option<string>)

  /** The errors the mutators throw, in the order they are checked. */
  datatype Error =
    | NotAuthenticated
    | GameNotFound
    | GameNotAvailable
    | CannotJoinOwnGame
    | GameFull
    | InvalidPosition
    | GameNotActive
    | NotAPlayer
    | NotYourTurn
    | PositionTaken
    | CanOnlyResetFinished

  /** The message each error carries. */
  function Message(e: Error): string {
    match e
    case NotAuthenticated => "Not authenticated"
    case GameNotFound => "Game not found"
    case GameNotAvailable => "Game is not available"
    case CannotJoinOwnGame => "Cannot join your own game"
    case GameFull => "Game is full"
    case InvalidPosition => "Invalid position"
    case GameNotActive => "Game is not active"
    case NotAPlayer => "Not a player in this game"
    case NotYourTurn => "Not your turn"
    case PositionTaken => "Position already taken"
    case CanOnlyResetFinished => "Can only reset finished games"
  }

  /** A caller can tell every error apart by its message alone. */
  lemma MessagesDistinct(e1: Error, e2: Error)
    requires e1 != e2
    ensures Message(e1) != Message(e2)
    ensures Message(e1) != "" && Message(e2) != ""
  {
  }

  // ---------------------------------------------------------------------
  // Lines and the winner check

  /** The eight lines of the grid: three rows, three columns, two diagonals, in table order. */
  const Lines: seq<(Pos, Pos, Pos)> :=
    [(0, 1, 2), (3, 4, 5), (6, 7, 8),
     (0, 3, 6), (1, 4, 7), (2, 5, 8),
     (0, 4, 8), (2, 4, 6)]

  /** Line l holds s in all three of its cells. */
  predicate LineOf(b: Board, l: (Pos, Pos, Pos), s: Symbol) {
    b[l.0] == Some(s) && b[l.1] == Some(s) && b[l.2] == Some(s)
  }

  /** Line l is filled with one mark, whichever it is. */
  predicate Complete(b: Board, l: (Pos, Pos, Pos)) {
    b[l.0].Some? && b[l.0] == b[l.1] && b[l.0] == b[l.2]
  }

  /** Some row, column or diagonal holds s in all three cells. */
  predicate HasLine(b: Board, s: Symbol) {
    exists k :: 0 <= k < |Lines| && LineOf(b, Lines[k], s)
  }

  /** No row, column or diagonal is filled with one mark. */
  predicate NoLine(b: Board) {
    forall k :: 0 <= k < |Lines| ==> !Complete(b, Lines[k])
  }

  /** `board.every(cell => cell !== null)` */
  predicate IsFull(b: Board) {
    forall i :: 0 <= i < 9 ==> b[i].Some?
  }

  /** The table search of checkWinner, from entry k on: the mark of the
      first complete line, or None when none of the remaining lines is complete. */
  function CheckWinnerFrom(b: Board, k: nat): (r: Option<Symbol>)
    requires k <= |Lines|
    ensures r.Some? ==> exists j :: k <= j < |Lines| && LineOf(b, Lines[j], r.value)
                                    && forall i :: k <= i < j ==> !Complete(b, Lines[i])
    ensures r.None? <==> forall j :: k <= j < |Lines| ==> !Complete(b, Lines[j])
    decreases |Lines| - k
  {
    if k == |Lines| then None
    else
      var l := Lines[k];
      if b[l.0].Some? && b[l.0] == b[l.1] && b[l.0] == b[l.2] then b[l.0]
      else CheckWinnerFrom(b, k + 1)
  }

  /** checkWinner: the mark of the first complete line in table order, or null. */
  function CheckWinner(b: Board): (r: Option<Symbol>)
    ensures r.Some? ==> HasLine(b, r.value)
    ensures r.None? <==> NoLine(b)
  {
    CheckWinnerFrom(b, 0)
  }

  /** The empty board has no winner. */
  lemma EmptyBoardHasNoWinner()
    ensures CheckWinner(EmptyBoard) == None
    ensures !IsFull(EmptyBoard)
  {
    assert EmptyBoard[0] == None;
  }

  // ---------------------------------------------------------------------
  // Counting marks

  function Count(cells: seq<Cell>, s: Symbol): nat {
    if cells == [] then 0
    else (if cells[0] == Some(s) then 1 else 0) + Count(cells[1..], s)
  }

  /** Writing mark m into an empty cell adds one m and leaves the count of every other mark alone. */
  lemma {:induction false} CountAfterPlace(cells: seq<Cell>, p: nat, m: Symbol, s: Symbol)
    requires p < |cells| && cells[p] == None
    ensures Count(cells[p := Some(m)], s) == Count(cells, s) + (if s == m then 1 else 0)
  {
    if p == 0 {
      assert cells[p := Some(m)][1..] == cells[1..];
    } else {
      CountAfterPlace(cells[1..], p - 1, m, s);
      assert cells[p := Some(m)][1..] == cells[1..][p - 1 := Some(m)];
    }
  }

  lemma EmptyCounts(s: Symbol)
    ensures Count(EmptyBoard, s) == 0
  {
  }

  // ---------------------------------------------------------------------
  // Mutator decisions

  /** The `if (game.player2Id)` test: a null or empty id is falsy. */
  predicate IsSet(p: Option<UserId>) {
    p.Some? && p.value != ""
  }

  /** createGame: throws without a session; otherwise the new row
      (the caller as player 1, no player 2, an empty board, X to move,
      waiting, no winner; an empty invite code is stored as null). */
  function Create(sess: Option<UserId>, inviteCode: Option<string>): (r: Result<Game, Error>)
    ensures r.Failure? <==> sess.None?
    ensures r.Failure? ==> r.error == NotAuthenticated
    ensures r.Success? ==>
      && r.value.player1 == sess.value && r.value.player2 == None
      && (forall i :: 0 <= i < 9 ==> r.value.board[i] == None)
      && r.value.currentPlayer == X && r.value.status == Waiting && r.value.winner == NoWinner
      && (r.value.inviteCode.Some? <==> inviteCode.Some? && inviteCode.value != "")
      && (r.value.inviteCode.Some? ==> r.value.inviteCode == inviteCode)
  {
    if sess.None? then Failure(NotAuthenticated)
    else
      var code := if inviteCode.Some? && inviteCode.value != "" then inviteCode else None;
      Success(Game(sess.value, None, EmptyBoard, X, Waiting, NoWinner, code))
  }

  /** joinGame: the checks in source order, then player 2 and status are written. */
  function Join(sess: Option<UserId>, row: Option<Game>): (r: Result<Game, Error>)
    ensures r.Success? <==>
      sess.Some? && row.Some? && row.value.status == Waiting
      && row.value.player1 != sess.value && !IsSet(row.value.player2)
    ensures r.Success? ==> r.value == row.value.(player2 := sess, status := Active)
    ensures sess.None? ==> r == Failure(NotAuthenticated)
    ensures sess.Some? && row.None? ==> r == Failure(GameNotFound)
    ensures sess.Some? && row.Some? && row.value.status != Waiting ==> r == Failure(GameNotAvailable)
    ensures (sess.Some? && row.Some? && row.value.status == Waiting && row.value.player1 == sess.value)
            ==> r == Failure(CannotJoinOwnGame)
    ensures (sess.Some? && row.Some? && row.value.status == Waiting && row.value.player1 != sess.value
             && IsSet(row.value.player2)) ==> r == Failure(GameFull)
  {
    if sess.None? then Failure(NotAuthenticated)
    else if row.None? then Failure(GameNotFound)
    else
      var game := row.value;
      if game.status != Waiting then Failure(GameNotAvailable)
      else if game.player1 == sess.value then Failure(CannotJoinOwnGame)
      else if IsSet(game.player2) then Failure(GameFull)
      else Success(game.(player2 := sess, status := Active))
  }

  /** The mark a caller plays: X for player 1 (who takes precedence), O otherwise. */
  function MoverSymbol(g: Game, user: UserId): Symbol {
    if g.player1 == user then X else O
  }

  predicate IsPlayer(g: Game, user: UserId) {
    g.player1 == user || g.player2 == Some(user)
  }

  /** The row makeMove writes once its checks pass: the mark placed at
      `position`, the turn handed over, the board judged. */
  function Place(game: Game, position: Pos, mark: Symbol): Game {
    var board: Board := game.board[position := Some(mark)];
    var winner := CheckWinner(board);
    var isDraw := winner.None? && IsFull(board);
    var newStatus := if winner.Some? || isDraw then Finished else game.status;
    game.(board := board,
          currentPlayer := Opponent(mark),
          status := newStatus,
          winner := if winner.Some? then Won(winner.value) else if isDraw then Draw else NoWinner)
  }

  /** makeMove: the position is checked before the row is read; then the
      status, membership, turn and occupancy checks, in that order. */
  function Move(sess: Option<UserId>, position: int, row: Option<Game>): (r: Result<Game, Error>)
    ensures sess.None? ==> r == Failure(NotAuthenticated)
    ensures sess.Some? && !(0 <= position <= 8) ==> r == Failure(InvalidPosition)
    ensures sess.Some? && 0 <= position <= 8 && row.None? ==> r == Failure(GameNotFound)
    ensures sess.Some? && 0 <= position <= 8 && row.Some? && row.value.status != Active
            ==> r == Failure(GameNotActive)
    ensures (sess.Some? && 0 <= position <= 8 && row.Some? && row.value.status == Active
             && !IsPlayer(row.value, sess.value)) ==> r == Failure(NotAPlayer)
    ensures (sess.Some? && 0 <= position <= 8 && row.Some? && row.value.status == Active
             && IsPlayer(row.value, sess.value)
             && row.value.currentPlayer != MoverSymbol(row.value, sess.value)) ==> r == Failure(NotYourTurn)
    ensures (sess.Some? && 0 <= position <= 8 && row.Some? && row.value.status == Active
             && IsPlayer(row.value, sess.value)
             && row.value.currentPlayer == MoverSymbol(row.value, sess.value)
             && row.value.board[position] != None) ==> r == Failure(PositionTaken)
    ensures r.Success? <==>
      sess.Some? && 0 <= position <= 8 && row.Some? && row.value.status == Active
      && IsPlayer(row.value, sess.value)
      && row.value.currentPlayer == MoverSymbol(row.value, sess.value)
      && row.value.board[position] == None
    // exactly one cell changes, from empty to the mover's mark
    ensures r.Success? ==>
      && r.value.board[position] == Some(row.value.currentPlayer)
      && (forall i :: 0 <= i < 9 && i != position ==> r.value.board[i] == row.value.board[i])
    // the turn passes, even when the move ends the game; the players do not change
    ensures r.Success? ==>
      && r.value.currentPlayer == Opponent(row.value.currentPlayer)
      && r.value.player1 == row.value.player1 && r.value.player2 == row.value.player2
      && r.value.inviteCode == row.value.inviteCode
    // the game ends exactly when a line is complete or the board is full
    ensures r.Success? ==>
      && (r.value.status == Finished <==> !NoLine(r.value.board) || IsFull(r.value.board))
      && (r.value.status != Finished ==> r.value.status == Active)
      && (r.value.winner.Won? ==> HasLine(r.value.board, r.value.winner.symbol))
      && (r.value.winner == Draw <==> NoLine(r.value.board) && IsFull(r.value.board))
      && (r.value.winner == NoWinner <==> r.value.status == Active)
  {
    if sess.None? then Failure(NotAuthenticated)
    else if position < 0 || position > 8 then Failure(InvalidPosition)
    else if row.None? then Failure(GameNotFound)
    else
      var game := row.value;
      if game.status != Active then Failure(GameNotActive)
      else
        var isPlayer1 := game.player1 == sess.value;
        var isPlayer2 := game.player2 == Some(sess.value);
        if !isPlayer1 && !isPlayer2 then Failure(NotAPlayer)
        else
          var currentSymbol := if isPlayer1 then X else O;
          if game.currentPlayer != currentSymbol then Failure(NotYourTurn)
          else if game.board[position] != None then Failure(PositionTaken)
          else Success(Place(game, position, currentSymbol))
  }

  /** resetGame: only a finished game, only for one of its players; the
      board, turn, status and winner go back to the start of play. */
  function Reset(sess: Option<UserId>, row: Option<Game>): (r: Result<Game, Error>)
    ensures sess.None? ==> r == Failure(NotAuthenticated)
    ensures sess.Some? && row.None? ==> r == Failure(GameNotFound)
    ensures sess.Some? && row.Some? && row.value.status != Finished ==> r == Failure(CanOnlyResetFinished)
    ensures (sess.Some? && row.Some? && row.value.status == Finished && !IsPlayer(row.value, sess.value))
            ==> r == Failure(NotAPlayer)
    ensures r.Success? <==>
      sess.Some? && row.Some? && row.value.status == Finished && IsPlayer(row.value, sess.value)
    ensures r.Success? ==>
      && (forall i :: 0 <= i < 9 ==> r.value.board[i] == None)
      && r.value.currentPlayer == X && r.value.status == Active && r.value.winner == NoWinner
      && r.value.player1 == row.value.player1 && r.value.player2 == row.value.player2
      && r.value.inviteCode == row.value.inviteCode
  {
    if sess.None? then Failure(NotAuthenticated)
    else if row.None? then Failure(GameNotFound)
    else
      var game := row.value;
      if game.status != Finished then Failure(CanOnlyResetFinished)
      else
        var isPlayer := game.player1 == sess.value || game.player2 == Some(sess.value);
        if !isPlayer then Failure(NotAPlayer)
        else Success(game.(board := EmptyBoard, currentPlayer := X, status := Active, winner := NoWinner))
  }

  // ---------------------------------------------------------------------
  // The invariant every stored game keeps

  /** What holds of every row the four mutators can produce:
      X moves first and the marks alternate, the recorded winner made the
      last move, and the status agrees with the board. */
  ghost predicate GameInvariant(g: Game) {
    var nx := Count(g.board, X);
    var no := Count(g.board, O);
    && (nx == no || nx == no + 1)
    && (g.currentPlayer == X <==> nx == no)
    && (g.player2.Some? ==> g.player2.value != g.player1)
    && (g.status == Waiting ==> g.player2 == None && g.board == EmptyBoard)
    && (g.status != Waiting ==> g.player2.Some?)
    && (g.status == Active ==> NoLine(g.board) && !IsFull(g.board))
    && (g.status == Finished <==> g.winner != NoWinner)
    && (g.winner.Won? ==> HasLine(g.board, g.winner.symbol)
                          && g.winner.symbol == Opponent(g.currentPlayer))
    && (g.winner == Draw ==> IsFull(g.board) && NoLine(g.board))
  }

  lemma CreateEstablishesInvariant(sess: Option<UserId>, inviteCode: Option<string>)
    requires Create(sess, inviteCode).Success?
    ensures GameInvariant(Create(sess, inviteCode).value)
  {
    EmptyCounts(X);
    EmptyCounts(O);
  }

  lemma JoinPreservesInvariant(sess: Option<UserId>, g: Game)
    requires GameInvariant(g)
    requires Join(sess, Some(g)).Success?
    ensures GameInvariant(Join(sess, Some(g)).value)
  {
    EmptyBoardHasNoWinner();
  }

  lemma ResetPreservesInvariant(sess: Option<UserId>, g: Game)
    requires GameInvariant(g)
    requires Reset(sess, Some(g)).Success?
    ensures GameInvariant(Reset(sess, Some(g)).value)
  {
    EmptyCounts(X);
    EmptyCounts(O);
    EmptyBoardHasNoWinner();
  }

  /** A line complete after placing m at p, but not before, runs through p and is m's. */
  lemma NewLineIsMovers(b: Board, p: Pos, m: Symbol, k: nat)
    requires k < |Lines| && NoLine(b)
    requires Complete(b[p := Some(m)], Lines[k])
    ensures LineOf(b[p := Some(m)], Lines[k], m)
  {
    var l := Lines[k];
    assert !Complete(b, l);
  }

  /** On a board with no line, any line the move completes is the mover's. */
  lemma {:induction false} WinnerOfMoveIsMover(b: Board, p: Pos, m: Symbol)
    requires NoLine(b)
    ensures CheckWinner(b[p := Some(m)]) == None || CheckWinner(b[p := Some(m)]) == Some(m)
  {
    var b': Board := b[p := Some(m)];
    var r := CheckWinner(b');
    if r.Some? {
      var j :| 0 <= j < |Lines| && LineOf(b', Lines[j], r.value)
                && forall i :: 0 <= i < j ==> !Complete(b', Lines[i]);
      NewLineIsMovers(b, p, m, j);
    }
  }

  /** A successful move keeps the invariant: counts alternate, the turn
      follows the counts, and a recorded winner is the mover. */
  lemma MovePreservesInvariant(sess: Option<UserId>, position: int, g: Game)
    requires GameInvariant(g)
    requires Move(sess, position, Some(g)).Success?
    ensures GameInvariant(Move(sess, position, Some(g)).value)
  {
    var g' := Move(sess, position, Some(g)).value;
    var m := g.currentPlayer;
    CountAfterPlace(g.board, position, m, X);
    CountAfterPlace(g.board, position, m, O);
    assert g'.board == g.board[position := Some(m)];
    WinnerOfMoveIsMover(g.board, position, m);
  }

  /** "The recorded winner is the mover": from any reachable game, a move
      that records a winning mark records the mark just played. */
  lemma RecordedWinnerIsMover(sess: Option<UserId>, position: int, g: Game)
    requires GameInvariant(g)
    requires Move(sess, position, Some(g)).Success?
    requires Move(sess, position, Some(g)).value.winner.Won?
    ensures Move(sess, position, Some(g)).value.winner.symbol == g.currentPlayer
    ensures Move(sess, position, Some(g)).value.winner.symbol == MoverSymbol(g, sess.value)
  {
    var m := g.currentPlayer;
    assert Move(sess, position, Some(g)).value.board == g.board[position := Some(m)];
    WinnerOfMoveIsMover(g.board, position, m);
  }

  /** In a reachable game the caller whose turn it is can always move
      somewhere: an active game has an empty cell. */
  lemma ActiveGameHasEmptyCell(g: Game)
    requires GameInvariant(g) && g.status == Active
    ensures exists i :: 0 <= i < 9 && g.board[i] == None
  {
  }
}

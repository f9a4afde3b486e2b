/** The `game` table as the mutators of src/shared/mutators.ts see it
    through their transaction: rows keyed by game id, read with
    `tx.query.game.where("id", "=", id).one()` and written with
    `tx.mutate.game.insert` / `update`. Each method performs one mutator:
    it reads, checks in source order, and on success writes the row back;
    on an error it writes nothing. */
module GameStore {
  import opened Wrappers
  import opened Mutators

  /** `one()`: the row with that id, or nothing. */
  function Lookup(games: map<GameId, Game>, id: GameId): Option<Game> {
    if id in games then Some(games[id]) else None
  }

  /** The new table after a decision: the written row on success, the old table on an error. */
  function Apply(games: map<GameId, Game>, id: GameId, r: Result<Game, Error>): map<GameId, Game> {
    if r.Success? then games[id := r.value] else games
  }

  /** The error a decision reports, or None when it wrote. */
  function ErrorOf(r: Result<Game, Error>): Option<Error> {
    if r.Failure? then Some(r.error) else None
  }

  /** Every row in the table satisfies the invariant that every row the
      mutators can produce satisfies (it admits some rows play never reaches). */
  ghost predicate AllSatisfyInvariant(games: map<GameId, Game>) {
    forall id :: id in games ==> GameInvariant(games[id])
  }

  /** Writing a row that keeps the invariant keeps it for the whole table. */
  lemma WriteKeepsReachable(games: map<GameId, Game>, id: GameId, g: Game)
    requires AllSatisfyInvariant(games) && GameInvariant(g)
    ensures AllSatisfyInvariant(games[id := g])
  {
  }

  class Store {
    var games: map<GameId, Game>

    /** Every stored game satisfies the game invariant. */
    ghost predicate Valid()
      reads this
    {
      AllSatisfyInvariant(games)
    }

    constructor ()
      ensures Valid() && games == map[]
    {
      games := map[];
    }

    /** createGame: the caller supplies a fresh id. */
    method CreateGame(sess: Option<UserId>, id: GameId, inviteCode: Option<string>) returns (err: Option<Error>)
      requires Valid()
      requires id !in games
      modifies this
      ensures Valid()
      ensures err == ErrorOf(Create(sess, inviteCode))
      ensures games == Apply(old(games), id, Create(sess, inviteCode))
    {
      if sess.None? {
        return Some(NotAuthenticated);
      }
      var code := if inviteCode.Some? && inviteCode.value != "" then inviteCode else None;
      var row := Game(sess.value, None, EmptyBoard, X, Waiting, NoWinner, code);
      CreateEstablishesInvariant(sess, inviteCode);
      games := games[id := row];
      err := None;
    }

    /** joinGame */
    method JoinGame(sess: Option<UserId>, gameId: GameId) returns (err: Option<Error>)
      requires Valid()
      modifies this
      ensures Valid()
      ensures err == ErrorOf(Join(sess, Lookup(old(games), gameId)))
      ensures games == Apply(old(games), gameId, Join(sess, Lookup(old(games), gameId)))
    {
      if sess.None? {
        return Some(NotAuthenticated);
      }
      if gameId !in games {
        return Some(GameNotFound);
      }
      var game := games[gameId];
      if game.status != Waiting {
        return Some(GameNotAvailable);
      }
      if game.player1 == sess.value {
        return Some(CannotJoinOwnGame);
      }
      if IsSet(game.player2) {
        return Some(GameFull);
      }
      JoinPreservesInvariant(sess, game);
      games := games[gameId := game.(player2 := sess, status := Active)];
      err := None;
    }

    /** makeMove: the mark is written into the parsed board in place, the
        board is judged, and the row is written back with the turn passed on. */
    method MakeMove(sess: Option<UserId>, gameId: GameId, position: int) returns (err: Option<Error>)
      requires Valid()
      modifies this
      ensures Valid()
      ensures err == ErrorOf(Move(sess, position, Lookup(old(games), gameId)))
      ensures games == Apply(old(games), gameId, Move(sess, position, Lookup(old(games), gameId)))
    {
      ghost var decision := Move(sess, position, Lookup(games, gameId));
      if sess.None? {
        return Some(NotAuthenticated);
      }
      if position < 0 || position > 8 {
        return Some(InvalidPosition);
      }
      if gameId !in games {
        return Some(GameNotFound);
      }
      var game := games[gameId];
      assert Lookup(games, gameId) == Some(game);
      if game.status != Active {
        return Some(GameNotActive);
      }
      var isPlayer1 := game.player1 == sess.value;
      var isPlayer2 := game.player2 == Some(sess.value);
      if !isPlayer1 && !isPlayer2 {
        return Some(NotAPlayer);
      }
      var currentSymbol := if isPlayer1 then X else O;
      if game.currentPlayer != currentSymbol {
        return Some(NotYourTurn);
      }
      var board: Board := game.board;
      if board[position] != None {
        assert decision == Failure(PositionTaken);
        return Some(PositionTaken);
      }
      board := board[position := Some(currentSymbol)];
      var winner := CheckWinner(board);
      var isDraw := winner.None? && IsFull(board);
      var newStatus := game.status;
      if winner.Some? || isDraw {
        newStatus := Finished;
      }
      var written := game.(board := board,
                           currentPlayer := if currentSymbol == X then O else X,
                           status := newStatus,
                           winner := if winner.Some? then Won(winner.value)
                                     else if isDraw then Draw else NoWinner);
      assert decision == Success(written);
      MovePreservesInvariant(sess, position, game);
      WriteKeepsReachable(games, gameId, written);
      games := games[gameId := written];
      err := None;
    }

    /** resetGame */
    method ResetGame(sess: Option<UserId>, gameId: GameId) returns (err: Option<Error>)
      requires Valid()
      modifies this
      ensures Valid()
      ensures err == ErrorOf(Reset(sess, Lookup(old(games), gameId)))
      ensures games == Apply(old(games), gameId, Reset(sess, Lookup(old(games), gameId)))
    {
      if sess.None? {
        return Some(NotAuthenticated);
      }
      if gameId !in games {
        return Some(GameNotFound);
      }
      var game := games[gameId];
      if game.status != Finished {
        return Some(CanOnlyResetFinished);
      }
      var isPlayer := game.player1 == sess.value || game.player2 == Some(sess.value);
      if !isPlayer {
        return Some(NotAPlayer);
      }
      ResetPreservesInvariant(sess, game);
      games := games[gameId := game.(board := EmptyBoard, currentPlayer := X, status := Active, winner := NoWinner)];
      err := None;
    }
  }
}

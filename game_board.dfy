/** The client side of a tic-tac-toe game, src/ui/game-board.tsx: who may
    click, when a click is sent to makeMove, and the status line. The
    component reads the same game row the server mutator reads. */
module GameBoard {
  import opened Wrappers
  import opened Mutators

  /** `isMyTurn`: the game is active and the viewer holds the mark whose turn it is. */
  predicate IsMyTurn(g: Game, user: UserId) {
    var isPlayer1 := g.player1 == user;
    var isPlayer2 := g.player2 == Some(user);
    g.status == Active && ((isPlayer1 && g.currentPlayer == X) || (isPlayer2 && g.currentPlayer == O))
  }

  /** The guard of `handleCellClick`: true exactly when the click is sent to makeMove.
      `position` is the index of a rendered cell. */
  predicate ClickSendsMove(g: Game, user: UserId, position: Pos) {
    !(g.status != Active || !IsMyTurn(g, user) || g.board[position] != None)
  }

  /** The client's turn test implies an active game in which the viewer is a player. */
  lemma MyTurnMeansActivePlayer(g: Game, user: UserId)
    requires IsMyTurn(g, user)
    ensures g.status == Active && IsPlayer(g, user)
  {
  }

  /** The guard mirrors makeMove. In any game the mutators can produce, a
      click the client sends passes every server check (authentication,
      range, row, status, membership, turn, occupancy), and a move the
      server would accept is one the client lets through. The mark placed
      is the one the board shows as the viewer's (`currentUserSymbol`). */
  lemma ClientGuardMatchesServer(g: Game, user: UserId, position: Pos)
    requires GameInvariant(g)
    ensures ClickSendsMove(g, user, position) <==> Move(Some(user), position, Some(g)).Success?
    ensures ClickSendsMove(g, user, position) ==>
      Move(Some(user), position, Some(g)).value.board[position] == Some(if g.player1 == user then X else O)
  {
    if ClickSendsMove(g, user, position) {
      assert g.player2.Some? ==> g.player2.value != g.player1;
    }
  }

  /** Without the invariant the mirror is not exact: when one user holds
      both seats (a row joinGame never writes) and it is O's turn, the
      client sends the click and the server answers "Not your turn". */
  lemma GuardNeedsDistinctSeats()
    ensures var g := Game("u", Some("u"), EmptyBoard, O, Active, NoWinner, None);
            ClickSendsMove(g, "u", 0) && Move(Some("u"), 0, Some(g)) == Failure(NotYourTurn)
  {
  }

  /** `name || fallback`: a missing or empty name gives the fallback. */
  function NameOr(name: Option<string>, fallback: string): string {
    if name.Some? && name.value != "" then name.value else fallback
  }

  /** `getGameStatus`, given the display names of the two seats. */
  function StatusLine(g: Game, user: UserId, name1: Option<string>, name2: Option<string>): (r: string)
    ensures g.status == Waiting ==> r == "Waiting for opponent..."
    ensures g.status == Finished && g.winner == Draw ==> r == "Game ended in a draw!"
    ensures g.status == Finished && g.winner == Won(X) ==> r == NameOr(name1, "Unknown") + " wins!"
    ensures g.status == Finished && g.winner == Won(O) ==> r == NameOr(name2, "Unknown") + " wins!"
    ensures g.status == Active && IsMyTurn(g, user) ==> r == "Your turn"
    ensures (g.status == Active && !IsMyTurn(g, user)) ==>
      r == NameOr(if g.player1 == user then name2 else name1, "Opponent") + "'s turn"
    ensures r == "" <==> g.status == Finished && g.winner == NoWinner
  {
    if g.status == Waiting then "Waiting for opponent..."
    else if g.status == Finished && g.winner == Draw then "Game ended in a draw!"
    else if g.status == Finished && g.winner.Won? then
      NameOr(if g.winner.symbol == X then name1 else name2, "Unknown") + " wins!"
    else if g.status == Active then
      if IsMyTurn(g, user) then "Your turn"
      else NameOr(if g.player1 == user then name2 else name1, "Opponent") + "'s turn"
    else
      assert g.status == Finished && g.winner == NoWinner;
      ""
  }

  /** For every game the mutators can produce the status line is never blank. */
  lemma StatusLineNeverBlank(g: Game, user: UserId, name1: Option<string>, name2: Option<string>)
    requires GameInvariant(g)
    ensures StatusLine(g, user, name1, name2) != ""
  {
  }
}

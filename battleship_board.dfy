/** The battleship grid component, src/ui/battleship-board.tsx: what each
    cell shows, which cells the placement preview lights up, and what a
    click on a cell asks the game to do. The component's callbacks
    (`onShipPlace`, `onCellClick`) are returned as a description of the
    call, not performed. */
module BattleshipBoard {
  import opened Wrappers

  /** `SHIP_SIZES`: the catalog of ship kinds and their lengths in cells. */
  const ShipSizes: map<string, nat> :=
    map["carrier" := 5, "battleship" := 4, "cruiser" := 3, "submarine" := 3, "destroyer" := 2]

  datatype GuessResult = Hit | Miss | Sunk

  /** A placed ship; start and end may be given in either order. */
  datatype Ship = Ship(id: string, shipType: string, startX: int, startY: int, endX: int, endY: int, sunk: bool)

  datatype Guess = Guess(id: string, x: int, y: int, result: GuessResult, hitShipId: Option<string>)

  datatype Orientation = Horizontal | Vertical

  /** The `placingShip` prop: the ship being placed, while placement lasts. */
  datatype PlacingShip = PlacingShip(shipType: string, length: int, orientation: Orientation)

  /** `getCellState`: a guess's result, "sunk-ship", "ship" or "empty". */
  datatype CellState = Marked(result: GuessResult) | SunkShip | ShipPart | EmptyCell

  datatype Point = Point(x: int, y: int)

  /** What a click on a cell asks of the game. */
  datatype Click =
    | NoCall
    | ShipPlace(startX: int, startY: int, endX: int, endY: int)   // onShipPlace(x, y, endX, endY)
    | CellClick(x: int, y: int)                                   // onCellClick(x, y)

  // ---------------------------------------------------------------------
  // Cell state

  /** The search of `Array.prototype.find` from index k on: the first element satisfying p. */
  function FindFrom<T>(s: seq<T>, p: T -> bool, k: nat): (r: Option<T>)
    requires k <= |s|
    ensures r.None? <==> forall i :: k <= i < |s| ==> !p(s[i])
    ensures r.Some? ==> exists i :: k <= i < |s| && s[i] == r.value && p(s[i])
                                    && forall j :: k <= j < i ==> !p(s[j])
    decreases |s| - k
  {
    if k == |s| then None
    else if p(s[k]) then Some(s[k])
    else FindFrom(s, p, k + 1)
  }

  /** `Array.prototype.find` */
  function Find<T>(s: seq<T>, p: T -> bool): (r: Option<T>)
    ensures r.None? <==> forall i :: 0 <= i < |s| ==> !p(s[i])
    ensures r.Some? ==> exists i :: 0 <= i < |s| && s[i] == r.value && p(s[i])
                                    && forall j :: 0 <= j < i ==> !p(s[j])
  {
    FindFrom(s, p, 0)
  }

  function Min(a: int, b: int): int { if a < b then a else b }
  function Max(a: int, b: int): int { if a < b then b else a }

  /** The ship's rectangle, bounds inclusive, contains (x, y). */
  predicate Covers(s: Ship, x: int, y: int) {
    x >= Min(s.startX, s.endX) && x <= Max(s.startX, s.endX) &&
    y >= Min(s.startY, s.endY) && y <= Max(s.startY, s.endY)
  }

  predicate GuessAt(g: Guess, x: int, y: int) {
    g.x == x && g.y == y
  }

  /** getCellState: a guess at the cell decides, whatever lies beneath;
      otherwise the first ship covering the cell, on one's own board only. */
  function CellStateAt(ships: seq<Ship>, guesses: seq<Guess>, isOpponentBoard: bool, x: int, y: int): (r: CellState)
    // a guess beats a ship: the first guess at the cell gives the state
    ensures (exists i :: 0 <= i < |guesses| && GuessAt(guesses[i], x, y)) <==> r.Marked?
    ensures r.Marked? ==> exists i :: 0 <= i < |guesses| && GuessAt(guesses[i], x, y)
                                      && r.result == guesses[i].result
                                      && forall j :: 0 <= j < i ==> !GuessAt(guesses[j], x, y)
    // ships show only on one's own board, and only under an unguessed cell
    ensures (r == SunkShip || r == ShipPart) ==> !isOpponentBoard
    ensures (r == SunkShip || r == ShipPart) ==>
      exists i :: 0 <= i < |ships| && Covers(ships[i], x, y) && (r == SunkShip <==> ships[i].sunk)
                  && forall j :: 0 <= j < i ==> !Covers(ships[j], x, y)
    ensures (!isOpponentBoard && !r.Marked?) ==>
      (r == EmptyCell <==> forall i :: 0 <= i < |ships| ==> !Covers(ships[i], x, y))
  {
    var guess := Find(guesses, (g: Guess) => GuessAt(g, x, y));
    if guess.Some? then Marked(guess.value.result)
    else if !isOpponentBoard then
      var ship := Find(ships, (s: Ship) => Covers(s, x, y));
      if ship.Some? then (if ship.value.sunk then SunkShip else ShipPart)
      else EmptyCell
    else EmptyCell
  }

  /** The opponent's ships are never revealed: on the opponent board an
      unguessed cell is empty, and the state does not depend on the ships. */
  lemma OpponentBoardHidesShips(ships1: seq<Ship>, ships2: seq<Ship>, guesses: seq<Guess>, x: int, y: int)
    ensures CellStateAt(ships1, guesses, true, x, y) == CellStateAt(ships2, guesses, true, x, y)
    ensures CellStateAt(ships1, guesses, true, x, y) == EmptyCell
            || CellStateAt(ships1, guesses, true, x, y).Marked?
  {
  }

  /** Membership does not depend on which end of the ship is called start. */
  lemma CoversIgnoresEndOrder(s: Ship, x: int, y: int)
    ensures Covers(s, x, y) <==> Covers(s.(startX := s.endX, endX := s.startX, startY := s.endY, endY := s.startY), x, y)
  {
  }

  /** getCellContent: the glyph of each state; "sunk" and "sunk-ship" share one. */
  function CellContent(state: CellState): (r: string)
    ensures r == "" <==> state == EmptyCell
    ensures r == "\U{00D7}" <==> state == Marked(Hit)
    ensures r == "\U{25CB}" <==> state == Marked(Miss)
    ensures r == "\U{25A0}" <==> state == ShipPart
    ensures r == "\U{2620}" <==> state == SunkShip || state == Marked(Sunk)
  {
    match state
    case Marked(Hit) => "\U{00D7}"
    case Marked(Miss) => "\U{25CB}"
    case Marked(Sunk) => "\U{2620}"
    case SunkShip => "\U{2620}"
    case ShipPart => "\U{25A0}"
    case EmptyCell => ""
  }

  /** No cell of the opponent board ever shows the ship glyph. */
  lemma OpponentBoardNeverShowsShipGlyph(ships: seq<Ship>, guesses: seq<Guess>, x: int, y: int)
    ensures CellContent(CellStateAt(ships, guesses, true, x, y)) != "\U{25A0}"
  {
  }

  // ---------------------------------------------------------------------
  // Placement preview

  /** The i-th cell of a ship laid from (x, y) along the orientation. */
  function StepFrom(x: int, y: int, o: Orientation, i: int): Point {
    if o == Horizontal then Point(x + i, y) else Point(x, y + i)
  }

  /** The coordinate that varies along the orientation. */
  function Along(p: Point, o: Orientation): int {
    if o == Horizontal then p.x else p.y
  }

  /** How many of the n steps from `start` stay below `size`. */
  function Visible(n: nat, start: int, size: int): nat {
    if size - start <= 0 then 0 else if size - start < n then size - start else n
  }

  /** The cells the first n iterations of handleCellHover's loop push:
      step i is pushed when its varying coordinate is below size. */
  function PreviewUpTo(x: int, y: int, o: Orientation, size: int, n: nat): seq<Point> {
    if n == 0 then []
    else
      var p := StepFrom(x, y, o, n - 1);
      PreviewUpTo(x, y, o, size, n - 1) + (if Along(p, o) < size then [p] else [])
  }

  /** The pushed cells are the first steps from (x, y), as many as stay below size. */
  lemma {:induction false} PreviewUpToShape(x: int, y: int, o: Orientation, size: int, n: nat)
    ensures var cells := PreviewUpTo(x, y, o, size, n);
            && |cells| == Visible(n, Along(Point(x, y), o), size)
            && forall k :: 0 <= k < |cells| ==> cells[k] == StepFrom(x, y, o, k) && Along(cells[k], o) < size
  {
    if n > 0 {
      PreviewUpToShape(x, y, o, size, n - 1);
    }
  }

  /** The hover preview of handleCellHover: None when no ship is being
      placed (the highlighted cells are left as they were). */
  function Preview(placing: Option<PlacingShip>, size: int, x: int, y: int): Option<seq<Point>> {
    if placing.None? then None
    else
      var length := placing.value.length;
      Some(PreviewUpTo(x, y, placing.value.orientation, size, if length < 0 then 0 else length))
  }

  /** handleCellHover: collects the preview cells with one loop per
      orientation and returns what it hands to setHoveredCells. */
  method HandleCellHover(placing: Option<PlacingShip>, size: int, x: int, y: int) returns (hovered: Option<seq<Point>>)
    ensures hovered == Preview(placing, size, x, y)
  {
    if placing.None? {
      return None;
    }
    var cells: seq<Point> := [];
    var length := placing.value.length;
    var o := placing.value.orientation;
    if o == Horizontal {
      var i := 0;
      while i < length
        invariant 0 <= i && (length >= 0 ==> i <= length) && (length < 0 ==> i == 0)
        invariant cells == PreviewUpTo(x, y, o, size, i)
      {
        assert PreviewUpTo(x, y, o, size, i + 1)
               == PreviewUpTo(x, y, o, size, i) + (if x + i < size then [Point(x + i, y)] else []);
        if x + i < size {
          cells := cells + [Point(x + i, y)];
        }
        i := i + 1;
      }
    } else {
      var i := 0;
      while i < length
        invariant 0 <= i && (length >= 0 ==> i <= length) && (length < 0 ==> i == 0)
        invariant cells == PreviewUpTo(x, y, o, size, i)
      {
        assert PreviewUpTo(x, y, o, size, i + 1)
               == PreviewUpTo(x, y, o, size, i) + (if y + i < size then [Point(x, y + i)] else []);
        if y + i < size {
          cells := cells + [Point(x, y + i)];
        }
        i := i + 1;
      }
    }
    hovered := Some(cells);
  }

  /** The preview is never longer than the ship, never leaves the grid on
      the varying axis, and is the whole ship when nothing is clipped. */
  lemma PreviewShape(p: PlacingShip, size: int, x: int, y: int)
    requires p.length >= 0
    ensures var cells := Preview(Some(p), size, x, y).value;
            && |cells| <= p.length
            && (Along(Point(x, y), p.orientation) + p.length <= size ==> |cells| == p.length)
            && (forall k :: 0 <= k < |cells| ==>
                  cells[k] == StepFrom(x, y, p.orientation, k) && Along(cells[k], p.orientation) < size)
  {
    PreviewUpToShape(x, y, p.orientation, size, p.length);
  }

  // ---------------------------------------------------------------------
  // Clicks

  /** The far end of a ship of the placing length laid from (x, y). */
  function PlacementEnd(x: int, y: int, p: PlacingShip): Point {
    if p.orientation == Horizontal then Point(x + p.length - 1, y) else Point(x, y + p.length - 1)
  }

  /** handleCellClick. `canPlace` and `canClick` say whether the
      `onShipPlace` and `onCellClick` callbacks were passed. */
  method HandleCellClick(disabled: bool, placing: Option<PlacingShip>, canPlace: bool, canClick: bool,
                         size: int, x: int, y: int) returns (call: Click)
    ensures disabled ==> call == NoCall
    ensures (!disabled && placing.Some? && canPlace) ==>
      var e := PlacementEnd(x, y, placing.value);
      call == (if e.x < size && e.y < size then ShipPlace(x, y, e.x, e.y) else NoCall)
    ensures (!disabled && !(placing.Some? && canPlace)) ==>
      call == (if canClick then CellClick(x, y) else NoCall)
    // a placement request always lies inside the grid's far edges, along one row or one column
    ensures call.ShipPlace? ==>
      && call.endX < size && call.endY < size
      && ((call.endY == call.startY && call.endX - call.startX == placing.value.length - 1)
          || (call.endX == call.startX && call.endY - call.startY == placing.value.length - 1))
  {
    if disabled {
      return NoCall;
    }
    if placing.Some? && canPlace {
      var length := placing.value.length;
      var endX := x;
      var endY := y;
      if placing.value.orientation == Horizontal {
        endX := x + length - 1;
      } else {
        endY := y + length - 1;
      }
      if endX < size && endY < size {
        call := ShipPlace(x, y, endX, endY);
      } else {
        call := NoCall;
      }
    } else if canClick {
      // the source's extra test `isOpponentBoard || !isOpponentBoard` always holds
      call := CellClick(x, y);
    } else {
      call := NoCall;
    }
  }

  /** The ship a click places is exactly the ship its hover preview showed:
      the preview is unclipped and its cells are the cells the placed ship
      covers (the cells getCellState then draws as ship). */
  lemma PlacementMatchesPreview(p: PlacingShip, size: int, x: int, y: int, id: string)
    requires p.length >= 1
    requires PlacementEnd(x, y, p).x < size && PlacementEnd(x, y, p).y < size
    ensures var cells := Preview(Some(p), size, x, y).value;
            var e := PlacementEnd(x, y, p);
            var placed := Ship(id, p.shipType, x, y, e.x, e.y, false);
            && |cells| == p.length
            && cells[|cells| - 1] == e
            && forall px: int, py: int :: Point(px, py) in cells <==> Covers(placed, px, py)
  {
    var cells := Preview(Some(p), size, x, y).value;
    var e := PlacementEnd(x, y, p);
    var placed := Ship(id, p.shipType, x, y, e.x, e.y, false);
    PreviewUpToShape(x, y, p.orientation, size, p.length);
    forall px: int, py: int
      ensures Point(px, py) in cells <==> Covers(placed, px, py)
    {
      if Covers(placed, px, py) {
        var k := if p.orientation == Horizontal then px - x else py - y;
        assert cells[k] == Point(px, py);
      }
    }
  }
}

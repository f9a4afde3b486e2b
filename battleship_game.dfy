/** The battleship match screen, src/ui/battleship-game.tsx: the ship
    catalog, the fleet placement sequence (one ship per click, the fleet
    sent once when the last ship is placed), the attack guard and the
    status line. The calls to the server mutators `placeBattleshipShips`
    and `makeBattleshipGuess` are returned as values; what those mutators
    do is not part of this model. */
module BattleshipGame {
  import opened Wrappers
  import opened Text
  import BattleshipBoard

  /** One entry of `SHIP_TYPES`. */
  datatype ShipType = ShipType(kind: string, length: nat, name: string)

  /** `SHIP_TYPES`: the five kinds in the order they are placed. */
  const ShipTypes: seq<ShipType> := [
    ShipType("carrier", 5, "Carrier"),
    ShipType("battleship", 4, "Battleship"),
    ShipType("cruiser", 3, "Cruiser"),
    ShipType("submarine", 3, "Submarine"),
    ShipType("destroyer", 2, "Destroyer")
  ]

  /** The placement catalog and the board's `SHIP_SIZES` agree: the same
      five kinds, each once, with the same lengths. */
  lemma ShipTypesMatchShipSizes()
    ensures |ShipTypes| == |BattleshipBoard.ShipSizes| == 5
    ensures forall i :: 0 <= i < |ShipTypes| ==>
      ShipTypes[i].kind in BattleshipBoard.ShipSizes
      && BattleshipBoard.ShipSizes[ShipTypes[i].kind] == ShipTypes[i].length
    ensures forall i, j :: 0 <= i < j < |ShipTypes| ==> ShipTypes[i].kind != ShipTypes[j].kind
  {
    assert BattleshipBoard.ShipSizes.Keys == {"carrier", "battleship", "cruiser", "submarine", "destroyer"};
  }

  /** The room's `status`, as far as this screen distinguishes it.
      `OtherPhase` stands for any other status text; `PhaseOf` builds it
      only from a text that is none of the four named ones. */
  datatype RoomPhase = Waiting | PlacingShips | Active | Finished | OtherPhase(name: string)

  /** The comparisons `gamePhase === "waiting"` and so on, made once. */
  function PhaseOf(status: string): (r: RoomPhase)
    ensures r == Waiting <==> status == "waiting"
    ensures r == PlacingShips <==> status == "placing_ships"
    ensures r == Active <==> status == "active"
    ensures r == Finished <==> status == "finished"
    ensures r.OtherPhase? ==> r.name == status
  {
    if status == "waiting" then Waiting
    else if status == "placing_ships" then PlacingShips
    else if status == "active" then Active
    else if status == "finished" then Finished
    else OtherPhase(status)
  }

  /** `isMyTurn`: the room's turn holder is this player. */
  predicate IsMyTurn(currentTurn: Option<string>, playerId: string) {
    currentTurn == Some(playerId)
  }

  /** `${player.id}-${shipType}-${Date.now()}`, kept as its three parts. */
  datatype ShipKey = ShipKey(playerId: string, shipType: string, placedAt: int)

  /** One ship of the fleet being assembled on the client. */
  datatype PlacedShip = PlacedShip(id: ShipKey, shipType: string, startX: int, startY: int, endX: int, endY: int)

  /** The placement state of the screen (`placingShipIndex`,
      `placedShips`) and the fleets sent to `placeBattleshipShips`. */
  class FleetPlacement {
    const playerId: string
    var placingShipIndex: nat
    var placedShips: seq<PlacedShip>
    ghost var submitted: seq<seq<PlacedShip>>

    /** One ship per catalog kind so far, in catalog order; the fleet has
        been sent exactly once if all five are placed, and never before. */
    ghost predicate Valid()
      reads this
    {
      && placingShipIndex <= |ShipTypes|
      && |placedShips| == placingShipIndex
      && (forall i :: 0 <= i < |placedShips| ==> placedShips[i].shipType == ShipTypes[i].kind)
      && submitted == (if placingShipIndex == |ShipTypes| then [placedShips] else [])
    }

    constructor (playerId: string)
      ensures Valid()
      ensures this.playerId == playerId && placingShipIndex == 0 && placedShips == [] && submitted == []
    {
      this.playerId := playerId;
      placingShipIndex := 0;
      placedShips := [];
      submitted := [];
    }

    /** handleShipPlace: the board's onShipPlace callback. Appends a ship
        of the current catalog kind (no overlap check) and moves on; the
        fifth placement sends the whole fleet. `now` is `Date.now()`. */
    method HandleShipPlace(startX: int, startY: int, endX: int, endY: int, now: int)
      returns (sent: Option<seq<PlacedShip>>)
      requires Valid()
      modifies this
      ensures Valid()
      ensures old(placingShipIndex) >= |ShipTypes| ==>
        sent == None && placingShipIndex == old(placingShipIndex) && placedShips == old(placedShips)
      ensures old(placingShipIndex) < |ShipTypes| ==>
        var kind := ShipTypes[old(placingShipIndex)].kind;
        && placedShips == old(placedShips) + [PlacedShip(ShipKey(playerId, kind, now), kind, startX, startY, endX, endY)]
        && placingShipIndex == old(placingShipIndex) + 1
      ensures sent.Some? <==> old(placingShipIndex) == |ShipTypes| - 1
      ensures sent.Some? ==> sent.value == placedShips && |sent.value| == |ShipTypes|
      ensures submitted == old(submitted) + (if sent.Some? then [sent.value] else [])
    {
      if placingShipIndex >= |ShipTypes| {
        return None;
      }
      var shipType := ShipTypes[placingShipIndex].kind;
      var newShip := PlacedShip(ShipKey(playerId, shipType, now), shipType, startX, startY, endX, endY);
      var updatedShips := placedShips + [newShip];
      placedShips := updatedShips;
      if placingShipIndex == |ShipTypes| - 1 {
        sent := Some(updatedShips);
        submitted := submitted + [updatedShips];
        placingShipIndex := |ShipTypes|;
      } else {
        sent := None;
        placingShipIndex := placingShipIndex + 1;
      }
    }
  }

  /** The `placingShip` prop handed to the player's own board: the
      current catalog entry while this player still has ships to place. */
  function PlacingProp(phase: RoomPhase, shipsPlaced: bool, placingShipIndex: nat,
                       orientation: BattleshipBoard.Orientation): (r: Option<BattleshipBoard.PlacingShip>)
    ensures r.Some? <==> phase == PlacingShips && !shipsPlaced && placingShipIndex < |ShipTypes|
    // the current catalog entry, in the chosen orientation
    ensures r.Some? ==>
      r.value == BattleshipBoard.PlacingShip(ShipTypes[placingShipIndex].kind,
                                             ShipTypes[placingShipIndex].length, orientation)
    // and, independently, a kind the board knows with the board's length for it
    ensures r.Some? ==>
      && r.value.shipType in BattleshipBoard.ShipSizes
      && r.value.length == BattleshipBoard.ShipSizes[r.value.shipType] >= 2
      && r.value.orientation == orientation
  {
    if phase == PlacingShips && !shipsPlaced && placingShipIndex < |ShipTypes| then
      var t := ShipTypes[placingShipIndex];
      Some(BattleshipBoard.PlacingShip(t.kind, t.length, orientation))
    else None
  }

  /** A click on the own board while placing lays a ship of exactly the
      current catalog length: the hover preview shows that many cells,
      ends at the placed ship's far end, and shows exactly the cells the
      placed ship then covers. */
  lemma PlacedShipHasCatalogLength(phase: RoomPhase, shipsPlaced: bool, placingShipIndex: nat,
                                   orientation: BattleshipBoard.Orientation, size: int, x: int, y: int, id: string)
    requires PlacingProp(phase, shipsPlaced, placingShipIndex, orientation).Some?
    requires var e := BattleshipBoard.PlacementEnd(x, y, PlacingProp(phase, shipsPlaced, placingShipIndex, orientation).value);
             e.x < size && e.y < size
    ensures var p := PlacingProp(phase, shipsPlaced, placingShipIndex, orientation).value;
            var cells := BattleshipBoard.Preview(Some(p), size, x, y).value;
            var e := BattleshipBoard.PlacementEnd(x, y, p);
            var placed := BattleshipBoard.Ship(id, ShipTypes[placingShipIndex].kind, x, y, e.x, e.y, false);
            && |cells| == ShipTypes[placingShipIndex].length
            && cells[|cells| - 1] == e
            && forall px: int, py: int :: BattleshipBoard.Point(px, py) in cells <==> BattleshipBoard.Covers(placed, px, py)
  {
    var p := PlacingProp(phase, shipsPlaced, placingShipIndex, orientation).value;
    BattleshipBoard.PlacementMatchesPreview(p, size, x, y, id);
  }

  /** The arguments of `makeBattleshipGuess` that the screen decides.
      The random guess id and the timestamp are left out. */
  datatype GuessCall = GuessCall(roomId: string, attackerId: string, targetId: string, x: int, y: int)

  /** handleGuess: the opponent board's onCellClick callback. */
  function HandleGuess(currentTurn: Option<string>, playerId: string, opponentId: Option<string>,
                       phase: RoomPhase, roomId: string, x: int, y: int): (r: Option<GuessCall>)
    ensures r.Some? <==> IsMyTurn(currentTurn, playerId) && opponentId.Some? && phase == Active
    ensures r.Some? ==> r.value == GuessCall(roomId, playerId, opponentId.value, x, y)
  {
    if !IsMyTurn(currentTurn, playerId) || opponentId.None? || phase != Active then None
    else Some(GuessCall(roomId, playerId, opponentId.value, x, y))
  }

  /** A guess that is sent names the room's turn holder as its attacker. */
  lemma GuessComesFromTurnHolder(currentTurn: Option<string>, playerId: string, opponentId: Option<string>,
                                 phase: RoomPhase, roomId: string, x: int, y: int)
    requires HandleGuess(currentTurn, playerId, opponentId, phase, roomId, x, y).Some?
    ensures currentTurn == Some(HandleGuess(currentTurn, playerId, opponentId, phase, roomId, x, y).value.attackerId)
  {
  }

  const WonText: string := "You won! \U{1F389}"
  const LostText: string := "You lost \U{1F622}"

  /** getGameStatus */
  function StatusLine(phase: RoomPhase, shipsPlaced: bool, placingShipIndex: nat, isMyTurn: bool,
                      winnerId: Option<string>, userId: string): (r: string)
    ensures phase == Waiting ==> r == "Waiting for opponent to join..."
    ensures (phase == PlacingShips && !shipsPlaced && placingShipIndex >= |ShipTypes|) ==>
      r == "Placing ships..."
    ensures phase == PlacingShips && shipsPlaced ==> r == "Waiting for opponent to place ships..."
    ensures phase == Finished ==> (r == WonText <==> winnerId == Some(userId))
    ensures phase == Finished ==> (r == LostText <==> winnerId != Some(userId))
    ensures (phase == PlacingShips && !shipsPlaced && placingShipIndex < |ShipTypes|) ==>
      r == "Place your " + ShipTypes[placingShipIndex].name
           + " (" + NatToString(ShipTypes[placingShipIndex].length) + " cells)"
    ensures phase == Active ==> r == if isMyTurn then "Your turn - click on opponent's board to attack!"
                                     else "Opponent's turn"
    ensures phase.OtherPhase? ==> r == ""
  {
    if phase == Waiting then "Waiting for opponent to join..."
    else if phase == PlacingShips then
      if !shipsPlaced then
        if placingShipIndex < |ShipTypes| then
          "Place your " + ShipTypes[placingShipIndex].name
          + " (" + NatToString(ShipTypes[placingShipIndex].length) + " cells)"
        else "Placing ships..."
      else "Waiting for opponent to place ships..."
    else if phase == Active then
      if isMyTurn then "Your turn - click on opponent's board to attack!" else "Opponent's turn"
    else if phase == Finished then
      if winnerId == Some(userId) then WonText else LostText
    else ""
  }
}

# hitwicket move engine, modelled in Dafny

The hitwicket server runs one two-player game on a 5×5 board. Each player has
five pieces: pawns P1, P2 and P3, and heroes H1 (Hero1) and H2 (Hero2).
Player1 starts on row 0 and Player2 on row 4. A board cell holds nothing or an
occupant tag `"<playerId>-<pieceName>"`.

A `playerMove` request names a player, a piece and a direction code. `handleMove`
checks the request in a fixed order and either rejects it, changing nothing,
or applies it in place:

- The piece moves. Its old cell is emptied and its tag is written on the new cell.
- A Hero then sweeps the two cells one and two unit steps from its old cell,
  in the move's direction. Any cell there holding a tag not prefixed by the
  mover's id is emptied, and the tag is appended to the opponent's
  elimination list.
- The turn passes to the other player.
- The win check runs.

This model covers the files as follows:

- `grid.dfy` has `getIndex` and `isInBounds`.
- `pieces.dfy` has the entities, the starting rosters and `initializeGameState`.
- `rules.dfy` has `handleMove` as functions on a state value: `Check` makes the
  validation in source order and `Apply` performs the accepted move, built from
  the sweep functions. `Move` combines the two.
- `server.dfy` has the server's mutable game state as a class. Its board is an
  array of 25 cells. The method `HandleMove` does the same updates in place,
  with the sweep as a loop, and is proved to reply with, and leave behind,
  exactly what `Move` gives for the old state.
- `rules_proofs.dfy` proves what a move does to every cell, roster, elimination
  list, the turn and the game-over flag.
- `endgame.dfy` proves that the win check, as written, compares bare piece
  names with qualified tags. With the shipped rosters it therefore never fires,
  and the game can never end.
- `scenarios.dfy` works through two Hero moves from the opening rows.

JavaScript details are stated outright:

- `startsWith(id)` is the sequence-prefix test `Id(p) <= tag`.
- A cell is truthy when it holds a non-empty string.
- `characters.find` gives the first entry with the requested name.
- The "Hero1 ? 2 : 2" loop bound is the constant `HeroReach`, which is 2.

## Model

| member | source | states |
|---|---|---|
| Grid.Index | lib/server/server.js:52-54 | every in-bounds cell maps to a slot in 0..24 |
| Grid.IndexRoundTrip | lib/server/server.js:52-58 | for an in-bounds cell, the slot lies in 0..24 and converts back to the same cell |
| Grid.CellAtRoundTrip | lib/server/server.js:52-58 | every slot 0..24 is the index of the in-bounds cell `CellAt(i)`, and of no other in-bounds cell |
| Grid.IndexInjective | lib/server/server.js:52-58 | two in-bounds cells share a slot if and only if they are the same cell |
| Pieces.InitialCellsHoldTags | lib/server/server.js:5-35 | in the starting position, every roster piece's cell holds that piece's tag |
| Pieces.InitialEmptyCells | lib/server/server.js:29-35 | a starting cell is empty exactly on rows 1-3 |
| Pieces.InitialOccupied | lib/server/server.js:5-26 | the starting rosters stand exactly on rows 0 and 4 |
| Pieces.InitialStateAgreesWithRosters | lib/server/server.js:5-39 | the starting state is well formed, its board agrees with both rosters cell by cell (tags where pieces stand, empty elsewhere), each player has five pieces and no eliminations, and Player1 moves first in a running game |
| Server.GameState.constructor | lib/server/server.js:28-41 | the new game state is the starting state, on a fresh 25-cell array |
| Grid.InBounds | lib/server/server.js:56-58 | no contract; characterised by Grid.IndexRoundTrip and Grid.CellAtRoundTrip |
| Pieces.Id | lib/server/server.js:6-16 | no contract; the wire ids `Player1` and `Player2` used in tags and by `startsWith`, characterised by RulesProofs.TagOwnership |
| Pieces.TagOf | lib/server/server.js:119 | no contract; characterised by RulesProofs.TagOwnership |
| Pieces.Opponent | lib/server/server.js:62 | no contract; the other id, used for the opponent at line 62 and for the turn flip at line 142, characterised by RulesProofs.RostersAfterMove |
| Pieces.IsHero | lib/server/server.js:120 | no contract; Hero1 or Hero2, characterised by RulesProofs.EliminationsAfterMove |
| Pieces.InitialPlayers | lib/server/server.js:5-26 | no contract; both rosters with empty elimination lists, characterised by Pieces.InitialStateAgreesWithRosters |
| Pieces.StartingRoster | lib/server/server.js:5-26 | no contract; characterised by Pieces.InitialStateAgreesWithRosters and Pieces.InitialOccupied |
| Pieces.InitialBoard | lib/server/server.js:29-35 | no contract; characterised by Pieces.InitialCellsHoldTags and Pieces.InitialEmptyCells |
| Pieces.InitialState | lib/server/server.js:28-39 | no contract; characterised by Pieces.InitialStateAgreesWithRosters |
| Rules.Delta | lib/server/server.js:75-106 | no contract; characterised by RulesProofs.DirectionTable |
| Rules.Unit | lib/server/server.js:121-126 | no contract; characterised by RulesProofs.DirectionTable |
| Rules.OwnedBy | lib/server/server.js:114 | no contract; characterised by RulesProofs.TagOwnership |
| Rules.Capturable | lib/server/server.js:134 | no contract; characterised by RulesProofs.TagOwnership |
| Rules.Truthy | lib/server/server.js:114 | no contract; JavaScript truthiness of a cell (present and non-empty), used by Rules.OwnedBy and Rules.Capturable |
| Rules.HeroReach | lib/server/server.js:128 | no contract; the loop bound 2 for both hero kinds |
| Rules.SweepCell | lib/server/server.js:129-130 | no contract; characterised by RulesProofs.SweepCellsDistinct and RulesProofs.DestinationIsSweepCell |
| Rules.PlacedBoard | lib/server/server.js:117-119 | the destination holds the tag, a distinct origin is emptied, every other cell is unchanged |
| Rules.SweepStep | lib/server/server.js:129-138 | keeps the 25-cell board; characterised by RulesProofs.SweepEffect |
| Rules.SweepUpTo | lib/server/server.js:127-140 | keeps the 25-cell board; characterised by RulesProofs.SweepEffect |
| Rules.RosterIn | lib/server/server.js:144 | no contract; characterised by RulesProofs.RosterInIsEvery |
| Rules.AllEliminated | lib/server/server.js:143-145 | no contract; characterised by RulesProofs.WinCheckAfterMove and Endgame.WinCheckCannotFire |
| Rules.FindCharacter | lib/server/server.js:64 | returns the first roster slot carrying the name, or None exactly when no entry carries it |
| Rules.Check | lib/server/server.js:60-116 | a request is accepted exactly when the piece is found, the game is not over, the code is known, the destination is in bounds and not held by the mover; the accepted slot is the first entry with the requested name, and the destination is its position plus the code's delta |
| Rules.Move | lib/server/server.js:60-152 | a move keeps the state well formed |
| Rules.Apply | lib/server/server.js:117-152 | an accepted move keeps the state well formed |
| Rules.Run | lib/server/server.js:154-165 | handling a sequence of requests keeps the state well formed |
| RulesProofs.DirectionTable | lib/server/server.js:75-106 | exactly the eight codes are accepted; L/R/F/B change one coordinate by one and the diagonal codes both by two; each delta is the sweep table's unit step taken once or twice |
| RulesProofs.DestinationIsSweepCell | lib/server/server.js:75-106 | the destination is sweep cell 1 for a cardinal code and sweep cell 2 for a diagonal |
| RulesProofs.SweepCellsDistinct | lib/server/server.js:121-130 | different step counts along one direction reach different cells |
| RulesProofs.TagOwnership | lib/server/server.js:114 | a player's own tag is owned and never capturable by that player; the opponent's tag is capturable; every tag has a `-` |
| RulesProofs.InSweepStep | lib/server/server.js:127-140 | the cells swept by steps 1..k are those of steps 1..k-1 plus step k's cell |
| RulesProofs.SweepVisitsFreshCell | lib/server/server.js:127-140 | no sweep step revisits a cell an earlier step looked at |
| RulesProofs.SweepEffect | lib/server/server.js:127-140 | the step-by-step sweep appends exactly the capturable tags of the swept cells, in step order, and empties exactly those cells |
| RulesProofs.CapturedSources | lib/server/server.js:127-140 | a sweep of k steps takes at most k tags, each from an in-bounds swept cell where it was capturable |
| RulesProofs.PlacedSweepSources | lib/server/server.js:117-140 | after the piece is placed, every captured tag comes from a swept cell other than the origin and the destination, where it stood beforehand |
| RulesProofs.RejectionOrder | lib/server/server.js:66-116 | the four checks run in source order; each failure gives its own rejection and leaves the state unchanged; the reply is a rejection exactly when validation fails |
| RulesProofs.GameOverIsFinal | lib/server/server.js:66-68 | after game over, every request is rejected and changes nothing |
| RulesProofs.BoardAfterMove | lib/server/server.js:108-141 | for an accepted move, the destination is the origin plus the delta; the origin cell is emptied and the destination gets the mover's tag; a Hero's capturable sweep cells are emptied; every other cell is unchanged |
| RulesProofs.RostersAfterMove | lib/server/server.js:117-142 | only the moved piece's position changes; the opponent's roster and the mover's eliminations are unchanged; the turn flips |
| RulesProofs.EliminationsAfterMove | lib/server/server.js:120-141 | a Pawn move leaves the opponent's list unchanged; a Hero move appends exactly the tags its sweep captures, in step order |
| RulesProofs.EliminatedTagSources | lib/server/server.js:117-141 | a move adds at most two tags to the opponent's list and keeps its earlier entries; each new tag stood on a swept cell other than the origin and the destination and was capturable |
| RulesProofs.AppendedFromSweep | lib/server/server.js:117-141 | a list equal to an old list, or to it followed by a sweep's captures, grew by at most two tags, each from a swept cell other than the origin and the destination, where it was capturable |
| RulesProofs.RosterInIsEvery | lib/server/server.js:144 | the recursive roster test holds exactly when every entry's name is in the elimination list, as `every` with `includes` |
| RulesProofs.WinCheckAfterMove | lib/server/server.js:142-151 | after an accepted move, the game is over exactly when the win check holds; the reply is game over with the mover as winner exactly then, and otherwise the updated state |
| RulesProofs.TurnNotEnforced | lib/server/server.js:60-152 | whose turn it is changes neither acceptance nor the reply, board or rosters |
| RulesProofs.RostersKeepTheirPieces | lib/server/server.js:117-119 | every roster keeps its pieces' names, kinds and order through any request |
| Endgame.WinCheckCannotFire | lib/server/server.js:143-145 | if no roster is empty, no piece name contains a `-` and every eliminated tag does, the win check is false |
| Endgame.BoardStaysQualified | lib/server/server.js:117-141 | every tag on the board after a move has a `-` |
| Endgame.EliminatedStayQualified | lib/server/server.js:120-141 | every tag in an elimination list after a move has a `-` |
| Endgame.CapturedQualified | lib/server/server.js:127-140 | a sweep over a board whose tags all have a `-` captures only such tags |
| Endgame.PlacedCapturesQualified | lib/server/server.js:117-140 | the same holds after the mover's own tag is placed |
| Endgame.MoveKeepsPlayable | lib/server/server.js:60-152 | a move from a playable state leaves it playable and never replies game over |
| Endgame.RunKeepsPlayable | lib/server/server.js:154-165 | any sequence of requests keeps a playable state playable |
| Endgame.InitialTagsQualified | lib/server/server.js:29-35 | every starting tag has a `-` |
| Endgame.InitialNamesBare | lib/server/server.js:5-26 | no starting roster is empty and no starting name has a `-` |
| Endgame.InitialStateIsPlayable | lib/server/server.js:5-39 | the starting state is playable |
| Endgame.ShippedGameNeverEnds | lib/server/server.js:143-149 | from the starting state, no sequence of requests ever ends the game |
| Scenarios.HeroStepsBackAccepted | lib/server/server.js:60-116 | Player1's H1 on (2,0) may step back to (2,1) unless Player1 holds that cell |
| Scenarios.HeroStepsBackBoard | lib/server/server.js:117-141 | the step empties (2,0) and puts Player1-H1 on (2,1); (2,2) is emptied exactly when it held a capturable tag |
| Scenarios.HeroStepsBackEliminates | lib/server/server.js:120-141 | the step adds to Player2's list exactly the capturable tag on (2,2), if there is one |
| Scenarios.HeroStepsBackAppendsCaptured | lib/server/server.js:120-141 | the step appends to Player2's list exactly what its sweep captures |
| Scenarios.HeroStepsBackCaptures | lib/server/server.js:127-140 | that sweep captures exactly the capturable tag on (2,2), if there is one |
| Scenarios.HeroLeapAccepted | lib/server/server.js:60-116 | H1 on (2,0) may leap BR to (4,2) unless Player1 holds that cell |
| Scenarios.HeroLeapBoard | lib/server/server.js:117-141 | the leap empties (2,0) and puts Player1-H1 on (4,2); (3,1) is emptied exactly when it held a capturable tag |
| Scenarios.HeroLeapEliminates | lib/server/server.js:120-141 | the leap adds exactly the capturable tag on (3,1); the Hero's own tag on (4,2) is never taken |
| Scenarios.HeroLeapAppendsCaptured | lib/server/server.js:120-141 | the leap appends to Player2's list exactly what its sweep captures |
| Scenarios.HeroLeapCaptures | lib/server/server.js:127-140 | that sweep captures exactly the capturable tag on (3,1), if there is one |
| Scenarios.HeroMovesGoOn | lib/server/server.js:142-151 | in a playable game on Player1's turn, an accepted H1 move by Player1 replies with the updated state and passes the turn to Player2 |
| Scenarios.StartingPositionStepsBack | lib/server/server.js:5-39 | the starting position meets the step-back hypotheses with (2,2) empty |
| Scenarios.StartStepsBack | lib/server/server.js:28-151 | from the starting position, H1 "B" empties (2,0), puts Player1-H1 on (2,1), captures nothing, replies with the updated state and gives the turn to Player2 |
| Scenarios.CapturedTwoSteps | lib/server/server.js:127-140 | a two-step sweep captures the capturable tag of step 1's cell, then that of step 2's cell |
| Scenarios.CaptureSetupLeaps | lib/server/server.js:5-39 | a position with Player2's P2 on (3,1) meets the leap hypotheses and that pawn is capturable |
| Scenarios.CaptureSetupLeapTakesPawn | lib/server/server.js:117-141 | from that position, H1 "BR" empties (2,0), puts Player1-H1 on (4,2), removes Player2's pawn from (3,1) and makes `Player2-P2` Player2's only elimination |
| Scenarios.PawnMove | lib/server/server.js:117-151 | in a playable game, an accepted pawn move empties the origin, writes the mover's tag on the destination, moves only that roster entry, leaves both elimination lists alone, flips the turn and replies with the updated state |
| Scenarios.PawnAdvancesFromStart | lib/server/server.js:5-151 | from the starting position, Player2's P2 "FR" goes from (1,4) to (3,2) and the result is again playable |
| Scenarios.PawnStepsToCaptureSetup | lib/server/server.js:60-151 | P2 "F" from (3,2) to (3,1) then gives the capture position, with Player1 to move |
| Scenarios.CaptureSetupReachable | lib/server/server.js:5-165 | the capture position is exactly what the requests P2 "FR" and P2 "F" by Player2 make of the starting state |
| Server.GameState.HandleMove | lib/server/server.js:60-152 | handling a request in place gives the reply and the new state that Move gives for the old state; the board array stays the same object |
| Server.GameState.Play | lib/server/server.js:117-151 | an accepted request applied in place gives the reply and the new state that Apply gives |
| Server.GameState.CaptureSweep | lib/server/server.js:126-140 | the sweep loop leaves the board and the opponent's list as the sweep specification gives them, and nothing else changes |
| Server.GameState.SweepOnce | lib/server/server.js:129-138 | one pass of the loop does what one sweep step specifies |

## Left out

- The WebSocket server, connection handling, broadcasting, JSON encoding and decoding, and console logging (lines 1-2, 43-50 and 154-182) are I/O and are not modelled. `Run` stands for handling requests one after another.
- The `initializeGame` message is a no-op in the source, and unknown message types only produce an error reply. Neither is modelled.
- Replies are the `Outcome` datatype: the rejection reason, the winner, or an update. Their message texts, the full-state payload and the "wins!" text are not modelled.
- A request with a player id other than `Player1` or `Player2` makes `handleMove` throw. The model's `Player` type has only the two ids, so that crash is not modelled.
- `initializeGameState` puts the module-level `players` object into the new state without copying it. Since the state is built only once, this aliasing has no effect and is not modelled.
- Nothing keeps roster positions consistent with board cells after a move, so no such invariant is claimed. `WellFormed` asks only for in-bounds positions. For example, capturing a piece leaves it in its roster at its old position.
- Rules.Move: the win check is modelled as written, comparing bare piece names with tags. It is therefore proved never to fire with the shipped rosters (`Endgame.ShippedGameNeverEnds`), rather than proving that the game ends when a side is wiped out.
- Turn order is not enforced by the source. The model does not add a turn check (`RulesProofs.TurnNotEnforced`).

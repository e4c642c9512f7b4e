# Backgammon engine: a Dafny model

This project models the server-side engine of a two-player online
backgammon game ("Long Nardgammon" in its comments). The engine has three
parts:

- the **board**: 24 point stacks of checkers, with per-colour bar and
  borne-off counts, changed in place;
- the **rule engine**: it lists the moves a roll allows and judges a
  requested move, checking intermediate legs on clones of the board;
- the **game**: a turn state machine with the phases *rolling* and
  *moving*, driven by `rollDice`, `movePiece` and `switchTurn`.

The model follows the code, including behaviour a backgammon player would
call wrong:

- the rule engine's blocked-point test reads the stack of a different
  point than the one the board moves checkers onto;
- as a result a move can be offered and accepted onto two or more checkers
  of the other colour, and the board, which hits only a lone checker, stacks
  the mover on them: a point can come to hold checkers of both colours;
- compound moves are offered whenever exactly two dice remain, even equal ones;
- the sum-distance branch of validation checks neither direction nor whether
  the source holds the mover's checker;
- requests from the bar or to "off" are never accepted;
- with die faces, every offered compound request is already accepted by the
  sum-distance branch, so the compound-match return after the candidate search
  (server/rules.js:176-177) is never reached;
- the win test runs after the turn may already have switched.

Files and modules:

- `position.dfy` (module `Position`) holds the value types:
  - colours and stacks, and a snapshot `Snapshot` (what `getState` returns);
  - the point/board-index mapping;
  - the opening layout and checker counts;
  - `MakeMoveEffect`, `MoveFromBarEffect` and `BearOffEffect`, which describe
    the board's mutating operations as functions from snapshot to snapshot;
  - lemmas about all of these.
- `board.dfy` (module `Boards`) holds the class `Board`. Its stacks are an
  `array<seq<Color>>`, and each mutating method is proved to have exactly
  the matching effect function's effect.
- `rules.dfy` (module `Rules`) states the candidate list `AvailableMoves` and
  the verdict `Validate` as functions. The methods `GetAvailableMoves` and
  `ValidateMove` follow the source's loops and clone simulation, and are
  proved equal to those functions. Neither method has a `modifies` clause,
  so neither can change the board it is given. `Offered` describes the
  candidates without the enumeration, and `AvailableMovesSpec` proves the two
  agree.
- `game.dfy` (module `Games`) holds the turn fields as a value `Turn`.
  - `RollEffect`, `MoveEffect` and `NextTurn` give `rollDice`, `movePiece` and
    `switchTurn` as functions.
  - The class `Game` is proved against them, keeping the invariant `TurnOk`
    plus conservation of the 15 checkers per colour.

Points are numbered 1..24; board index `i` holds point `i+1` for `i < 12`
and point `36-i` otherwise. `getState` returns the stacks by board index
and not by point number.

The bar and borne-off lists only ever hold checkers of their own colour,
so they are modelled as per-colour counts (`Tally`).

A `makeMove` from an empty but valid point takes the value `undefined` as
the mover. No direction test applies to it and nothing is popped. A lone
checker of either colour on the destination is still sent to its owner's
bar. The `undefined` then pushed on the destination has no counterpart in
the model: the destination is left without it. For the rule engine's
clones this gives the same answer to every later blocked-point test:

- an empty or single-checker destination has length at most one either way,
  and such a stack is open;
- a taller stack keeps its bottom checker, which is the one the test reads.

## Model

| member | source | states |
|---|---|---|
| Position.PointToBoardIndex | server/board.js:16-31 | defined exactly for points 1..24 (0 and out-of-range give none), with an index in 0..23 |
| Position.BoardIndexToPoint | server/board.js:34-47 | defined exactly for indices 0..23, with a point in 1..24 |
| Position.PointIndexRoundTrip | server/board.js:16-47 | index-to-point of point-to-index is the identity on 1..24 |
| Position.IndexPointRoundTrip | server/board.js:16-47 | point-to-index of index-to-point is the identity on 0..23 |
| Position.IndexOfInjective | server/board.js:16-31 | distinct points map to distinct stacks |
| Position.InitialLayout | server/board.js:66-75 | opening layout: 15 white on point 24, 15 black on point 1, every other point empty |
| Position.InitialConserved | server/board.js:66-75 | the opening position has 15 checkers of each colour |
| Position.MakeMoveEffect | server/board.js:85-131 | a refused move leaves the snapshot unchanged; no move changes the borne-off counts |
| Position.MakeMoveFromEmpty | server/board.js:98-129 | from an empty valid point the move always succeeds; a lone checker of either colour on the destination goes to its owner's bar and the destination empties; otherwise nothing changes |
| Position.MakeMoveRefusals | server/board.js:89-116 | each `makeMove` refusal (bad point number, white moving up, black moving down) happens exactly in its case and changes nothing; a move from an empty valid point is never refused |
| Position.MakeMoveOutcome | server/board.js:98-129 | a move from an occupied point that is not refused pops the source and leaves the other 22 stacks and the off counts alone; on a lone opposing checker the mover stands alone and that checker's bar gains one, otherwise the mover is pushed on top of the destination and the bars are unchanged |
| Position.MakeMoveHit | server/board.js:118-129 | landing on a lone opposing checker sends it to its owner's bar and leaves the mover alone on the point; the other stacks are unchanged |
| Position.MakeMoveConserves | server/board.js:118-129 | `makeMove` keeps each colour's piece count |
| Position.MoveFromBarConserves | server/board.js:222-245 | `moveFromBar` keeps each colour's piece count |
| Position.MoveFromBarEffect | server/board.js:222-245 | a refusal leaves the snapshot unchanged; a success takes one checker off the colour's bar; off counts never change |
| Position.BearOffEffect | server/board.js:183-192 | a refusal leaves the snapshot unchanged; a success adds one to the colour's off count; bars never change |
| Position.BearOffConserves | server/board.js:183-192 | `bearOff` keeps each colour's piece count |
| Position.MoveFromBarOutcome | server/board.js:222-245 | succeeds iff the bar holds the colour and the target is not blocked; a refusal changes nothing; success takes one checker off the bar and tops the target with it |
| Position.BearOffOutcome | server/board.js:183-192 | moves one checker to off iff the top at `from` is the colour's; otherwise no change |
| Position.WonIffNoneLeft | server/board.js:247-249 | with all checkers accounted for, 15 off holds iff none of the colour is left on the points or the bar |
| Boards.Board.GetState | server/board.js:77-83 | the board's stacks by board index, with the bar and off counts |
| Boards.Board.HasWon | server/board.js:247-249 | 15 borne off; `Boards.HasWonIffNoneLeft` relates it to the checkers left on the board |
| Boards.Board.constructor | server/board.js:2-13 | a new board has empty bars and offs and the opening layout |
| Boards.Board.SetupInitialPosition | server/board.js:66-75 | a fresh array with the opening layout; bar and off untouched |
| Boards.Board.Clone | server/board.js:49-64 | a new board and a new array with equal contents |
| Boards.Board.MakeMove | server/board.js:85-131 | result and new state are those of `MakeMoveEffect` on the old state, in the same array |
| Boards.Board.IsValidMove | server/board.js:133-168 | true iff both points are in 1..24, the top of `from` is the colour, and `to` is not held by two or more checkers with another colour at the bottom |
| Boards.Board.GetPieceCount | server/board.js:170-181 | the colour's checkers on all points plus bar plus off |
| Boards.Board.BearOff | server/board.js:183-192 | result and new state are those of `BearOffEffect` |
| Boards.Board.CanBearOff | server/board.js:194-220 | true iff the colour's bar is empty and every stack holding the colour lies in its home board (1-6 white, 19-24 black) |
| Boards.Board.MoveFromBar | server/board.js:222-245 | result and new state are those of `MoveFromBarEffect` |
| Boards.HasWonIffNoneLeft | server/board.js:247-249 | on a conserved board `hasWon` holds iff no checker of the colour remains on points or bar |
| Boards.BlockedPointRefused | server/board.js:162-165 | a white blot on point 1 may not move onto two black checkers on point 2 |
| Rules.CanMoveToPoint | server/rules.js:180-202 | only points 1..24 can be open; `Rules.CanMoveToPointReads` pins which stack is read |
| Rules.CanBearOff | server/rules.js:204-235 | the engine's bear-off test; `Rules.CanBearOffStricter` states what it implies and when it fails |
| Rules.CanMoveToPointReads | server/rules.js:180-188 | which board point's stack the blocked-point test reads; it is the board's own stack only for black on points 1..12 |
| Rules.BlockedPointLooksOpen | server/rules.js:180-202 | white is told point 2 is open while two black checkers stand there, because point 14's stack is read |
| Rules.OfferedMoveMixesStack | server/rules.js:185-188 | white's 6-5 move from 24 onto two black checkers on 18 is offered and accepted, and the board then holds black, black, white on point 18 |
| Rules.CanBearOffStricter | server/rules.js:204-235 | the engine's bear-off check implies the board's (empty bar, all at home), fails for a source outside the home board, and fails while the colour is on the bar |
| Rules.HomeBoardBearOff | server/rules.js:204-235 | white with checkers only on points 6 and 4 and an empty bar may bear off from 6 |
| Rules.LegsOpenOnClone | server/rules.js:68-97 | the first leg is open on the board and the destination is open on a clone that has made that leg |
| Rules.CollectPlayerPoints | server/rules.js:29-39 | the point numbers whose top checker is the colour's, in board-index order |
| Rules.SinglesFrom | server/rules.js:42-56 | the single-die moves from one point, die by die |
| Rules.CompoundsFrom | server/rules.js:59-100 | the compound moves from one point, first order then swapped |
| Rules.BarEntries | server/rules.js:13-27 | one entry move per die while the entry point is open |
| Rules.SinglesAll | server/rules.js:42-56 | single-die moves from all the colour's points |
| Rules.CompoundsAll | server/rules.js:59-100 | compound moves from all the colour's points |
| Rules.AvailableMoves | server/rules.js:7-104 | the candidate list; `Rules.AvailableMovesSpec` shows that it lists exactly the `Offered` candidates |
| Rules.GetAvailableMoves | server/rules.js:7-104 | the list equals `AvailableMoves` of the board's state; the board is not modified |
| Rules.Validate | server/rules.js:106-178 | the verdict; the `Rules.Validate…` lemmas below state each of its outcomes against `Offered` |
| Rules.ValidateMove | server/rules.js:106-178 | the verdict equals `Validate` of the board's state; the board is not modified |
| Rules.BarMovesShape | server/rules.js:13-27 | bar moves are entries to 24 (white) or 1 (black), one per die in order, or none when the entry point is closed |
| Rules.BarFirst | server/rules.js:13-27 | while the colour is on the bar, the candidate list is exactly those entries |
| Rules.PlayerPointsSpec | server/rules.js:29-39 | a point is collected iff it is in 1..24 and the colour holds its top checker |
| Rules.SingleFromSpec | server/rules.js:42-56 | a single move from a point is listed iff its die is rolled, its target is `from - die` (white) or `from + die` (black) in 1..24, and that target passes the blocked-point test |
| Rules.SingleMovesSpec | server/rules.js:42-56 | a single move is listed iff its source is a collected point and it is listed for that point |
| Rules.CompoundFromSpec | server/rules.js:59-100 | a compound move goes to `from ∓ (d0+d1)` in 1..24, records dice `[d0,d1]` with via `from ∓ d0` or `[d1,d0]` with via `from ∓ d1`, and is listed iff both legs of that order are open |
| Rules.CompoundMovesSpec | server/rules.js:59-100 | a compound move is listed iff its source is a collected point and it is listed for that point |
| Rules.AvailableMovesSpec | server/rules.js:7-104 | a candidate is listed iff it is `Offered`: bar entries only while on the bar, otherwise singles from the colour's tops and compounds only with exactly two dice, equal or not |
| Rules.OpeningCompound | server/rules.js:59-100 | from the opening position white's 6-3 offers 24 to 15 via 18 |
| Rules.FindMatchSpec | server/rules.js:159-163 | `find` returns the first listed candidate matching both point numbers (none before it matches), and finds nothing iff none matches |
| Rules.FindMatchConcat | server/rules.js:159-163 | `find` over singles followed by compounds returns a matching single whenever there is one |
| Rules.FirstIndexSpec | server/rules.js:170-173 | `indexOf` gives the first position of a present value (no earlier position holds it), -1 for an absent one |
| Rules.RemoveDie | server/rules.js:170-173 | splicing out a rolled die leaves one fewer die, with the same multiset less that die, removed at its first occurrence |
| Rules.ValidateMissingCoordinates | server/rules.js:109-111 | a missing or zero endpoint is refused with 'Invalid move coordinates' |
| Rules.ValidateBarFirst | server/rules.js:115-120 | with the colour on the bar, any source other than 'bar' is refused with 'Must move pieces from the bar first' |
| Rules.ValidOnlyPointToPoint | server/rules.js:128-167 | only point-to-point requests are ever valid: 'bar' and 'off' endpoints never validate |
| Rules.ValidateSumBranch | server/rules.js:127-156 | once the coordinate and bar checks pass, two dice whose sum is the distance and whose legs are open give a valid verdict using the whole roll |
| Rules.ValidateSingleMatch | server/rules.js:158-173 | a request with the endpoints of an offered single move (sum branch not taken) is valid, leaving the roll less that die at its first occurrence |
| Rules.CompoundTakesSumBranch | server/rules.js:127-156 | with die faces, every offered compound request meets the sum branch and is accepted with the whole roll used |
| Rules.ValidateCompoundMatch | server/rules.js:158-177 | the compound-match return: a request matching an offered compound and no offered single, not taken by the sum branch, is valid with the whole roll used; reachable only with dice summing below zero |
| Rules.ValidateNoMatch | server/rules.js:158-167 | a request that passes the coordinate and bar checks, misses the sum branch and matches no offered candidate is refused with 'Invalid move - not in available moves' |
| Rules.OfferedIsValid | server/rules.js:158-177 | every offered single or compound move is accepted |
| Rules.BarEntryNeverValid | server/rules.js:158-167 | an offered bar entry is never accepted |
| Rules.SumBranchAcceptsBackwardFromEmpty | server/rules.js:127-156 | the sum branch accepts white's 6-3 request from the empty point 6 up to 15 on the opening board, using the whole roll |
| Games.NextTurn | server/game.js:124-135 | the colour to move changes; the phase is rolling with no roll and no moves |
| Games.RollEffect | server/game.js:32-59 | a refused roll leaves the turn unchanged; no roll changes whose turn it is |
| Games.Execute | server/game.js:82-89 | the board after an accepted request; no accepted request changes the off counts |
| Games.MoveEffect | server/game.js:61-122 | a rejection leaves board and turn unchanged; no move changes the off counts |
| Games.Game.Start | server/game.js:22-30 | the room, players, current player, colour and phase, as `start` reports them; the reported player is the one of the reported colour |
| Games.Game.constructor | server/game.js:6-20 | white is the first player and to move; no roll, rolling, no moves; opening board |
| Games.Game.RollDice | server/game.js:32-59 | report and new turn are those of `RollEffect`; the game stays consistent |
| Games.Game.MovePiece | server/game.js:61-122 | report, new board and new turn are those of `MoveEffect`; the game stays consistent |
| Games.Game.ExecuteOn | server/game.js:82-89 | the board after an accepted request is `Execute` of the old one, whose bar and off branches cannot be taken |
| Games.Game.SwitchTurn | server/game.js:124-135 | the new turn is `NextTurn` of the old |
| Games.SwitchTurnKeepsPairing | server/game.js:124-135 | player and colour flip together, keeping the player the one of the colour; roll none, rolling, no moves |
| Games.SwitchTwiceRestores | server/game.js:124-135 | two switches restore player and colour |
| Games.RollOutcome | server/game.js:32-59 | a roll is refused with no change iff the caller is not current or the phase is not rolling; otherwise moving, the roll stored, moves listed for it |
| Games.RollKeepsInvariant | server/game.js:32-59 | rolling keeps the game consistent |
| Games.MoveRejections | server/game.js:69-80 | the wrong player or phase gets 'Not your turn or wrong game state', a rejected request gets its message, and either leaves board and turn unchanged |
| Games.MoveOutcome | server/game.js:82-121 | after an accepted move the roll is what validation left, moves are recomputed on the new board, the turn switches iff that roll or that list is empty, and off counts are unchanged |
| Games.MoveKeepsInvariant | server/game.js:61-122 | a move keeps the game consistent and 15 checkers of each colour |
| Games.GameOverAfterSwitch | server/game.js:95-110 | the game-over report is given iff the colour to play after any switch has 15 off, and names that colour's player |
| Games.NoWinWithoutBearingOff | server/game.js:82-110 | with nothing borne off, a move never ends the game and off stays empty |
| Games.EmptySourceOnlyViaSum | server/game.js:75-89 | an accepted request from an empty point can only come through the sum branch |
| Games.Game.GetGameState | server/game.js:137-146 | the reported state; `Games.GameViewConsistent` shows it is consistent |
| Games.GameViewConsistent | server/game.js:137-146 | `getGameState` of a consistent game reports a consistent state |

## Left out

- Position.MakeMoveEffect and Boards.Board.MakeMove: from an empty valid point the hit on the destination is modelled, but the `undefined` the board code then pushes there is not, because the model has no value for it. The board code's later behaviour on such a stack is therefore not modelled either: an `undefined` top stops that colour moving from the point, and hitting a lone `undefined` would throw.
- Games.Execute and Games.Game.ExecuteOn: the same gap. An accepted request from an empty point, which only the sum branch lets through, sends a lone checker on the destination to its owner's bar, as the board code does. The `undefined` left on the destination is not represented.
- Games.Game.MovePiece: the same gap, through `ExecuteOn`: the hit from an empty point is modelled, the `undefined` checker it leaves is not.
- Position.BearOffEffect, Position.MoveFromBarEffect, Boards.Board.BearOff and Boards.Board.MoveFromBar: require a valid point number where the board code would dereference a missing stack and throw.
- JS coercions: request endpoints are a datatype, either absent, 'bar', 'off' or a number. String point numbers, `parseInt` of arbitrary text and string comparison in the direction test are not modelled. A 'bar' or 'off' endpoint equals no parsed point, and it makes the sum-distance branch's distance NaN.
- Dice: the roll is an input of `RollDice`, and each value must be a die face. What the unseen dice module returns (two values, or four on doubles) is not modelled.
- Logging, `start`'s use by the transport, and the board's display helpers (`getStackInfo`, `getAllStacks`, `getBarInfo`, `getBorneOffInfo`) are left out. They carry no rule logic.
- getState aliasing: the board returns its live arrays, and the model returns a value snapshot, so a caller mutating the returned arrays is not modelled.
- The rule engine's own `pointToBoardIndex` (server/rules.js:238-245) is never called, so it is not modelled.
- The transport and matchmaking (server/index.js), the client UI (public/script.js), persistence (server/Mongo.js, server/excel.js) and the unused player stub (server/player.js) are not part of this model.
- Bar and off are counts, not lists: the lists only ever hold copies of their own colour.

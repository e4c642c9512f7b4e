/** The turn state machine of server/game.js. The fields a game changes
    between calls are collected in a `Turn` value; `rollDice`, `movePiece`
    and `switchTurn` are given as functions from the old board and turn to
    the report and the new board and turn, and the class `Game` is proved
    against them. The dice are an input of `RollDice`. */
module Games {
  import opened Position
  import opened Boards
  import opened Rules

  type PlayerId = string

  /** `players`: who plays white (the first player) and who plays black. */
  datatype Players = Players(white: PlayerId, black: PlayerId) {
    function Of(c: Color): PlayerId {
      if c == White then white else black
    }
  }

  /** `gameState`: 'rolling' or 'moving'. */
  datatype Phase = Rolling | Moving

  /** The fields a game updates: `currentPlayer`, `currentPlayerColor`,
      `currentRoll` (null as None), `gameState` and `availableMoves`. */
  datatype Turn = Turn(
    currentPlayer: PlayerId,
    currentPlayerColor: Color,
    currentRoll: Option<seq<int>>,
    gameState: Phase,
    availableMoves: seq<Candidate>)

  /** What `start` reports. */
  datatype StartView = StartView(
    roomId: string, players: Players, currentPlayer: PlayerId, currentPlayerColor: Color, gameState: Phase)

  /** What a successful `rollDice` reports. */
  datatype RollReport = RollReport(
    roll: seq<int>, currentPlayer: PlayerId, currentPlayerColor: Color, availableMoves: seq<Candidate>)

  /** What `movePiece` reports: a refusal with its message, the new state
      after a move, or the end of the game. */
  datatype MoveReport =
    | Rejected(message: string)
    | Moved(board: Snapshot, currentPlayer: PlayerId, currentPlayerColor: Color,
            currentRoll: Option<seq<int>>, gameState: Phase, availableMoves: seq<Candidate>, turnEnded: bool)
    | GameOver(winner: PlayerId, winnerColor: Color, board: Snapshot)

  /** What `getGameState` reports. */
  datatype GameView = GameView(
    board: Snapshot, currentPlayer: PlayerId, currentPlayerColor: Color,
    currentRoll: Option<seq<int>>, gameState: Phase, availableMoves: seq<Candidate>)

  const MsgWrongTurn := "Not your turn or wrong game state"

  /** The consistency a game keeps between calls: the current player is
      the one playing the current colour; while rolling there is no roll and
      no move list; while moving the move list is the engine's list for the
      board, the colour and the roll. */
  predicate TurnOk(players: Players, s: Snapshot, t: Turn) {
    t.currentPlayer == players.Of(t.currentPlayerColor) &&
    (t.gameState == Rolling ==> t.currentRoll == None && t.availableMoves == []) &&
    (t.gameState == Moving ==>
       t.currentRoll.Some? && t.availableMoves == AvailableMoves(s, t.currentPlayerColor, t.currentRoll.value))
  }

  /** `switchTurn`: the player flips by comparing with the white player's
      id, the colour flips independently, and the roll and moves reset. */
  function NextTurn(players: Players, t: Turn): (r: Turn)
    ensures r.currentPlayerColor != t.currentPlayerColor
    ensures r.gameState == Rolling && r.currentRoll == None && r.availableMoves == []
  {
    Turn(if t.currentPlayer == players.white then players.black else players.white,
         t.currentPlayerColor.Opponent(), None, Rolling, [])
  }

  /** `rollDice` with the roll given. */
  function RollEffect(s: Snapshot, t: Turn, playerId: PlayerId, roll: seq<int>): (r: (Option<RollReport>, Turn))
    ensures r.0.None? ==> r.1 == t
    ensures r.1.currentPlayer == t.currentPlayer && r.1.currentPlayerColor == t.currentPlayerColor
  {
    if playerId != t.currentPlayer || t.gameState != Rolling then (None, t)
    else
      var moves := AvailableMoves(s, t.currentPlayerColor, roll);
      (Some(RollReport(roll, t.currentPlayer, t.currentPlayerColor, moves)),
       t.(currentRoll := Some(roll), gameState := Moving, availableMoves := moves))
  }

  /** The board after an accepted request. Only point-to-point requests
      are ever accepted, so the 'bar' and 'off' branches of `movePiece`
      cannot be taken. A request from an empty point (which only the
      sum-distance branch lets through) still hits a lone checker on the
      destination; see MakeMoveEffect. */
  function Execute(s: Snapshot, move: Request, color: Color, dice: seq<int>): (r: Snapshot)
    requires Validate(s, move, color, dice).Valid?
    ensures r.off == s.off
  {
    ValidOnlyPointToPoint(s, move, color, dice);
    if move.from == Bar then assert false; s
    else if move.to == Off then assert false; s
    else MakeMoveEffect(s, move.from.n, move.to.n).1
  }

  /** `movePiece`: refuse the wrong player or phase, then any request the
      engine rejects; otherwise move, replace the roll by what is left of
      it, recompute the moves, switch the turn when the roll or the moves
      ran out, and only then test the current colour for a win. */
  function MoveEffect(players: Players, s: Snapshot, t: Turn, playerId: PlayerId, move: Request): (r: (MoveReport, Snapshot, Turn))
    requires TurnOk(players, s, t)
    ensures r.0.Rejected? ==> r.1 == s && r.2 == t
    ensures r.1.off == s.off
  {
    if playerId != t.currentPlayer || t.gameState != Moving then (Rejected(MsgWrongTurn), s, t)
    else
      var color := t.currentPlayerColor;
      var dice := t.currentRoll.value;
      var v := Validate(s, move, color, dice);
      if v.Invalid? then (Rejected(v.message), s, t)
      else
        var after := Execute(s, move, color, dice);
        var roll := v.remainingDice;
        var moves := AvailableMoves(after, color, roll);
        var shouldEndTurn := |roll| == 0 || |moves| == 0;
        var next := if shouldEndTurn then NextTurn(players, t)
                    else t.(currentRoll := Some(roll), availableMoves := moves);
        if after.off.Of(next.currentPlayerColor) == CheckersPerColor then
          (GameOver(next.currentPlayer, next.currentPlayerColor, after), after, next)
        else
          (Moved(after, next.currentPlayer, next.currentPlayerColor, next.currentRoll, next.gameState,
                 next.availableMoves, shouldEndTurn), after, next)
  }

  class Game {
    const roomId: string
    const players: Players
    const board: Board
    var currentPlayer: PlayerId
    var currentPlayerColor: Color
    var currentRoll: Option<seq<int>>
    var gameState: Phase
    var availableMoves: seq<Candidate>

    function GetTurn(): Turn
      reads this
    {
      Turn(currentPlayer, currentPlayerColor, currentRoll, gameState, availableMoves)
    }

    ghost predicate Valid()
      reads this, board, board.points
    {
      board.Valid() && Conserved(board.GetState()) && TurnOk(players, board.GetState(), GetTurn())
    }

    /** White is the first player and moves first; the board starts in
        the opening layout. */
    constructor(roomId: string, player1: PlayerId, player2: PlayerId)
      ensures Valid() && fresh(board) && fresh(board.points)
      ensures this.roomId == roomId && players == Players(player1, player2)
      ensures GetTurn() == Turn(player1, White, None, Rolling, [])
      ensures board.GetState() == InitialPosition()
    {
      this.roomId := roomId;
      players := Players(player1, player2);
      currentPlayer := player1;
      currentPlayerColor := White;
      board := new Board();
      currentRoll := None;
      gameState := Rolling;
      availableMoves := [];
      new;
      InitialConserved();
    }

    /** `start`: the room, the players and whose turn it is, in which
        phase; the reported player is the one of the reported colour. */
    function Start(): (r: StartView)
      reads this, board, board.points
      requires Valid()
      ensures r.currentPlayer == r.players.Of(r.currentPlayerColor)
      ensures r.gameState == Rolling ==> GetTurn().currentRoll == None
    {
      StartView(roomId, players, currentPlayer, currentPlayerColor, gameState)
    }

    /** The dice values come from outside; each is a die face. */
    method RollDice(playerId: PlayerId, roll: seq<int>) returns (r: Option<RollReport>)
      requires Valid()
      requires forall k :: 0 <= k < |roll| ==> 1 <= roll[k] <= 6
      modifies this
      ensures Valid()
      ensures (r, GetTurn()) == RollEffect(board.GetState(), old(GetTurn()), playerId, roll)
    {
      if playerId != currentPlayer || gameState != Rolling {
        return None;
      }
      currentRoll := Some(roll);
      gameState := Moving;
      availableMoves := GetAvailableMoves(board, currentPlayerColor, currentRoll.value);
      return Some(RollReport(currentRoll.value, currentPlayer, currentPlayerColor, availableMoves));
    }

    method MovePiece(playerId: PlayerId, move: Request) returns (r: MoveReport)
      requires Valid()
      modifies this, board, board.points
      ensures Valid()
      ensures (r, board.GetState(), GetTurn()) ==
              MoveEffect(players, old(board.GetState()), old(GetTurn()), playerId, move)
    {
      ghost var s, t := board.GetState(), GetTurn();
      if playerId != currentPlayer || gameState != Moving {
        return Rejected(MsgWrongTurn);
      }

      var moveResult := ValidateMove(board, move, currentPlayerColor, currentRoll.value);
      if moveResult.Invalid? {
        return Rejected(moveResult.message);
      }

      ExecuteOn(board, move, currentPlayerColor, currentRoll.value);
      ghost var after := board.GetState();
      assert moveResult == Validate(s, move, t.currentPlayerColor, t.currentRoll.value);
      assert after == Execute(s, move, t.currentPlayerColor, t.currentRoll.value);

      currentRoll := Some(moveResult.remainingDice);
      availableMoves := GetAvailableMoves(board, currentPlayerColor, currentRoll.value);

      var shouldEndTurn := |currentRoll.value| == 0 || |availableMoves| == 0;
      if shouldEndTurn {
        SwitchTurn();
      }

      MoveKeepsInvariant(players, s, t, playerId, move);
      if board.HasWon(currentPlayerColor) {
        return GameOver(currentPlayer, currentPlayerColor, board.GetState());
      }
      return Moved(board.GetState(), currentPlayer, currentPlayerColor, currentRoll, gameState,
                   availableMoves, shouldEndTurn);
    }

    /** The board half of an accepted `movePiece`. */
    static method ExecuteOn(board: Board, move: Request, color: Color, dice: seq<int>)
      requires board.Valid() && Validate(board.GetState(), move, color, dice).Valid?
      modifies board, board.points
      ensures board.Valid() && board.points == old(board.points)
      ensures board.GetState() == Execute(old(board.GetState()), move, color, dice)
    {
      ValidOnlyPointToPoint(board.GetState(), move, color, dice);
      if move.from == Bar {
        assert false;
      } else if move.to == Off {
        assert false;
      } else {
        // The result of the board move is not looked at.
        var moved := board.MakeMove(move.from.n, move.to.n);
      }
    }

    method SwitchTurn()
      modifies this
      ensures GetTurn() == NextTurn(players, old(GetTurn()))
    {
      currentPlayer := if currentPlayer == players.white then players.black else players.white;
      currentPlayerColor := if currentPlayerColor == White then Black else White;
      currentRoll := None;
      gameState := Rolling;
      availableMoves := [];
    }

    function GetGameState(): GameView
      reads this, board, board.points
      requires board.Valid()
    {
      GameView(board.GetState(), currentPlayer, currentPlayerColor, currentRoll, gameState, availableMoves)
    }
  }

  // ---------------------------------------------------------------------
  // Lemmas: switchTurn

  /** Switching flips player and colour together and leaves a consistent
      rolling state. */
  lemma SwitchTurnKeepsPairing(players: Players, s: Snapshot, t: Turn)
    requires t.currentPlayer == players.Of(t.currentPlayerColor)
    ensures var n := NextTurn(players, t);
            n.currentPlayerColor == t.currentPlayerColor.Opponent() &&
            n.currentPlayer == players.Of(n.currentPlayerColor) &&
            n.currentRoll == None && n.gameState == Rolling && n.availableMoves == [] &&
            TurnOk(players, s, n)
  {
  }

  /** Two switches give the turn back to the same player and colour. */
  lemma SwitchTwiceRestores(players: Players, t: Turn)
    requires t.currentPlayer == players.Of(t.currentPlayerColor)
    ensures var n := NextTurn(players, NextTurn(players, t));
            n.currentPlayer == t.currentPlayer && n.currentPlayerColor == t.currentPlayerColor
  {
  }

  // ---------------------------------------------------------------------
  // Lemmas: rollDice

  /** A roll is refused, with nothing changed, exactly when the caller is
      not the current player or the game is not waiting for a roll; an
      accepted roll stores the dice, starts moving and offers the engine's
      moves for them, keeping player and colour. */
  lemma RollOutcome(s: Snapshot, t: Turn, playerId: PlayerId, roll: seq<int>)
    ensures var (r, n) := RollEffect(s, t, playerId, roll);
            (r.None? <==> playerId != t.currentPlayer || t.gameState != Rolling) &&
            (r.None? ==> n == t) &&
            (r.Some? ==>
               n.gameState == Moving && n.currentRoll == Some(roll) &&
               n.availableMoves == AvailableMoves(s, t.currentPlayerColor, roll) &&
               n.currentPlayer == t.currentPlayer && n.currentPlayerColor == t.currentPlayerColor &&
               r.value == RollReport(roll, n.currentPlayer, n.currentPlayerColor, n.availableMoves))
  {
  }

  lemma RollKeepsInvariant(players: Players, s: Snapshot, t: Turn, playerId: PlayerId, roll: seq<int>)
    requires TurnOk(players, s, t)
    ensures TurnOk(players, s, RollEffect(s, t, playerId, roll).1)
  {
  }

  // ---------------------------------------------------------------------
  // Lemmas: movePiece

  /** The wrong player or phase, and every request the engine rejects,
      leave board and turn unchanged and report the reason. */
  lemma MoveRejections(players: Players, s: Snapshot, t: Turn, playerId: PlayerId, move: Request)
    requires TurnOk(players, s, t)
    ensures var (r, after, next) := MoveEffect(players, s, t, playerId, move);
            (playerId != t.currentPlayer || t.gameState != Moving ==> r == Rejected(MsgWrongTurn)) &&
            (playerId == t.currentPlayer && t.gameState == Moving &&
             Validate(s, move, t.currentPlayerColor, t.currentRoll.value).Invalid? ==>
               r == Rejected(Validate(s, move, t.currentPlayerColor, t.currentRoll.value).message)) &&
            (r.Rejected? ==> after == s && next == t)
  {
  }

  /** After an accepted move the roll is what validation left, the move
      list is recomputed on the new board, and the turn switches exactly
      when that roll or that list is empty. */
  lemma MoveOutcome(players: Players, s: Snapshot, t: Turn, playerId: PlayerId, move: Request)
    requires TurnOk(players, s, t)
    ensures var (r, after, next) := MoveEffect(players, s, t, playerId, move);
            !r.Rejected? ==>
              var v := Validate(s, move, t.currentPlayerColor, t.currentRoll.value);
              var moves := AvailableMoves(after, t.currentPlayerColor, v.remainingDice);
              var ended := |v.remainingDice| == 0 || |moves| == 0;
              v.Valid? && move.from.Pt? && move.to.Pt? && after.off == s.off &&
              (ended ==> next == NextTurn(players, t)) &&
              (!ended ==> next == t.(currentRoll := Some(v.remainingDice), availableMoves := moves)) &&
              (r.Moved? ==> r.turnEnded == ended && r.board == after && r.gameState == next.gameState &&
                            r.currentPlayer == next.currentPlayer && r.currentPlayerColor == next.currentPlayerColor &&
                            r.currentRoll == next.currentRoll && r.availableMoves == next.availableMoves)
  {
    if playerId == t.currentPlayer && t.gameState == Moving {
      ValidOnlyPointToPoint(s, move, t.currentPlayerColor, t.currentRoll.value);
    }
  }

  /** A move keeps the game consistent and every colour's 15 checkers on
      the board. */
  lemma MoveKeepsInvariant(players: Players, s: Snapshot, t: Turn, playerId: PlayerId, move: Request)
    requires TurnOk(players, s, t) && Conserved(s)
    ensures var (r, after, next) := MoveEffect(players, s, t, playerId, move);
            TurnOk(players, after, next) && Conserved(after)
  {
    if playerId == t.currentPlayer && t.gameState == Moving {
      var color, dice := t.currentPlayerColor, t.currentRoll.value;
      var v := Validate(s, move, color, dice);
      if v.Valid? {
        ValidOnlyPointToPoint(s, move, color, dice);
        MakeMoveConserves(s, move.from.n, move.to.n, White);
        MakeMoveConserves(s, move.from.n, move.to.n, Black);
        SwitchTurnKeepsPairing(players, Execute(s, move, color, dice), t);
      }
    }
  }

  /** The game-over report is given exactly when the colour to play after
      the move (the opponent when the turn has just switched) has borne off
      all 15 checkers, and it names that colour's player. */
  lemma GameOverAfterSwitch(players: Players, s: Snapshot, t: Turn, playerId: PlayerId, move: Request)
    requires TurnOk(players, s, t)
    ensures var (r, after, next) := MoveEffect(players, s, t, playerId, move);
            (!r.Rejected? ==> (r.GameOver? <==> after.off.Of(next.currentPlayerColor) == CheckersPerColor)) &&
            (r.GameOver? ==> r.winnerColor == next.currentPlayerColor &&
                             r.winner == players.Of(r.winnerColor) && r.board == after)
  {
    if playerId == t.currentPlayer && t.gameState == Moving &&
       Validate(s, move, t.currentPlayerColor, t.currentRoll.value).Valid? {
      SwitchTurnKeepsPairing(players, s, t);
    }
  }

  /** Moves never change the borne-off counts, so a game that starts with
      none borne off never reports a winner. */
  lemma NoWinWithoutBearingOff(players: Players, s: Snapshot, t: Turn, playerId: PlayerId, move: Request)
    requires TurnOk(players, s, t) && s.off == Tally(0, 0)
    ensures var (r, after, next) := MoveEffect(players, s, t, playerId, move);
            !r.GameOver? && after.off == Tally(0, 0)
  {
    MoveOutcome(players, s, t, playerId, move);
  }

  /** An accepted request from an empty point can only come through the
      sum-distance branch: every offered candidate starts on a point the
      mover tops. */
  lemma EmptySourceOnlyViaSum(s: Snapshot, move: Request, color: Color, dice: seq<int>)
    requires Validate(s, move, color, dice).Valid?
    requires move.from.Pt? && !SourceOccupied(s, move.from.n)
    ensures |dice| == 2 && SumMatches(s, move, color, dice)
  {
    var moves := AvailableMoves(s, color, dice);
    FindMatchSpec(moves, move);
    if !(|dice| == 2 && SumMatches(s, move, color, dice)) {
      var m := FindMatch(moves, move).value;
      AvailableMovesSpec(s, color, dice, m);
      assert false;
    }
  }

  /** `getGameState` of a consistent game reports a consistent state. */
  lemma GameViewConsistent(g: Game)
    requires g.Valid()
    ensures var v := g.GetGameState();
            v.board == g.board.GetState() && Conserved(v.board) &&
            v.currentPlayer == g.players.Of(v.currentPlayerColor) &&
            (v.gameState == Rolling ==> v.currentRoll == None && v.availableMoves == []) &&
            (v.gameState == Moving ==>
               v.currentRoll.Some? &&
               v.availableMoves == AvailableMoves(v.board, v.currentPlayerColor, v.currentRoll.value))
  {
  }
}

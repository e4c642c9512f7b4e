/** The move rule engine of server/rules.js. `canMoveToPoint` and
    `canBearOff` are pure predicates on a board snapshot. The candidate
    list and the verdict on a requested move are given first as functions
    (AvailableMoves, Validate), then computed by methods that follow the
    source's loops and simulate intermediate legs on clones; the methods
    carry no modifies clause, so they cannot change the board they are
    given. Lemmas characterise the candidates and the verdicts. */
module Rules {
  import opened Position
  import opened Boards

  /** A move the engine offers: `{from: 'bar', to, die}`, `{from, to, die}`
      or `{from, to, via, dice}`. */
  datatype Candidate =
    | BarEntry(to: int, die: int)
    | Single(from: int, to: int, die: int)
    | Compound(from: int, to: int, via: int, dice: seq<int>)

  /** One end of a requested move as a client sends it: absent, the
      sentinel 'bar' or 'off', or a point number. */
  datatype Endpoint = Missing | Bar | Off | Pt(n: int)

  /** The `{from, to}` of a move request; its `pieceId` is never read. */
  datatype Request = Request(from: Endpoint, to: Endpoint)

  datatype Verdict = Invalid(message: string) | Valid(remainingDice: seq<int>)

  const MsgCoordinates := "Invalid move coordinates"
  const MsgBarFirst := "Must move pieces from the bar first"
  const MsgNotAvailable := "Invalid move - not in available moves"

  /** Where a colour re-enters from the bar. */
  function EntryPoint(c: Color): int {
    if c == White then 24 else 1
  }

  /** White moves towards point 1, black towards point 24. */
  function Dest(c: Color, point: int, distance: int): int {
    if c == White then point - distance else point + distance
  }

  /** The stack `canMoveToPoint` reads: its own mapping, not the board's. */
  function RulesIndex(c: Color, point: int): int {
    if c == White then 24 - point else point - 1
  }

  // ---------------------------------------------------------------------
  // canMoveToPoint, canBearOff

  /** A point outside 1..24 is closed; an empty or single-checker stack is
      open; a taller stack is open iff its bottom checker is the mover's. */
  predicate CanMoveToPoint(s: Snapshot, pointNumber: int, color: Color)
    ensures CanMoveToPoint(s, pointNumber, color) ==> 1 <= pointNumber <= 24
  {
    if pointNumber < 1 || pointNumber > 24 then false
    else
      var point := s.points[RulesIndex(color, pointNumber)];
      if |point| == 0 then true
      else if |point| == 1 then true
      else point[0] == color
  }

  /** The engine's bear-off check: no checker on the bar, the moving
      checker's own point in the home board, and every stack holding the
      colour in the home board. */
  predicate CanBearOff(s: Snapshot, from: int, color: Color) {
    if s.bar.Of(color) > 0 then false
    else if from < HomeStart(color) || from > HomeEnd(color) then false
    else AllHome(s, color)
  }

  // ---------------------------------------------------------------------
  // The candidate list, as functions

  /** One bar entry per die (in dice order) when the entry point is open. */
  function BarMoves(s: Snapshot, color: Color, dice: seq<int>): seq<Candidate>
    decreases |dice|
  {
    if dice == [] then []
    else
      BarMoves(s, color, dice[..|dice| - 1]) +
      (if CanMoveToPoint(s, EntryPoint(color), color)
       then [BarEntry(EntryPoint(color), dice[|dice| - 1])] else [])
  }

  /** Point numbers of the first n board indices whose top checker is the
      colour's, in board-index order. */
  function PlayerPoints(s: Snapshot, color: Color, n: nat): seq<int>
    requires n <= 24
  {
    if n == 0 then []
    else
      var point := s.points[n - 1];
      PlayerPoints(s, color, n - 1) +
      (if |point| > 0 && Top(point) == color then
         match BoardIndexToPoint(n - 1)
         case Some(p) => [p]
         case None => []
       else [])
  }

  /** Single-die moves from one point, one per die in dice order. */
  function SingleFrom(s: Snapshot, color: Color, point: int, dice: seq<int>): seq<Candidate>
    decreases |dice|
  {
    if dice == [] then []
    else
      var die := dice[|dice| - 1];
      var to := Dest(color, point, die);
      SingleFrom(s, color, point, dice[..|dice| - 1]) +
      (if 1 <= to <= 24 && CanMoveToPoint(s, to, color) then [Single(point, to, die)] else [])
  }

  function SingleMoves(s: Snapshot, color: Color, points: seq<int>, dice: seq<int>): seq<Candidate>
    decreases |points|
  {
    if points == [] then []
    else SingleMoves(s, color, points[..|points| - 1], dice) + SingleFrom(s, color, points[|points| - 1], dice)
  }

  /** Both legs of a two-die move `from -> to` that uses die `first` first
      are open: the intermediate point on the original, the destination on
      the clone after the first leg. */
  predicate LegsOpen(s: Snapshot, color: Color, from: int, to: int, first: int) {
    var mid := Dest(color, from, first);
    CanMoveToPoint(s, mid, color) && CanMoveToPoint(MakeMoveEffect(s, from, mid).1, to, color)
  }

  /** Compound moves from one point: the `[d0, d1]` order, then `[d1, d0]`. */
  function CompoundFrom(s: Snapshot, color: Color, point: int, d0: int, d1: int): seq<Candidate> {
    var to := Dest(color, point, d0 + d1);
    if !(1 <= to <= 24) then []
    else
      (if LegsOpen(s, color, point, to, d0) then [Compound(point, to, Dest(color, point, d0), [d0, d1])] else []) +
      (if LegsOpen(s, color, point, to, d1) then [Compound(point, to, Dest(color, point, d1), [d1, d0])] else [])
  }

  function CompoundMoves(s: Snapshot, color: Color, points: seq<int>, d0: int, d1: int): seq<Candidate>
    decreases |points|
  {
    if points == [] then []
    else CompoundMoves(s, color, points[..|points| - 1], d0, d1) + CompoundFrom(s, color, points[|points| - 1], d0, d1)
  }

  /** `getAvailableMoves` as a function: bar entries only while the bar is
      non-empty; otherwise single-die moves, then compound moves whenever
      there are exactly two dice (equal or not). */
  function AvailableMoves(s: Snapshot, color: Color, dice: seq<int>): seq<Candidate> {
    if s.bar.Of(color) > 0 then BarMoves(s, color, dice)
    else
      var points := PlayerPoints(s, color, 24);
      SingleMoves(s, color, points, dice) +
      (if |dice| == 2 then CompoundMoves(s, color, points, dice[0], dice[1]) else [])
  }

  /** The point holds a stack whose top checker is the colour's. */
  predicate HoldsTop(s: Snapshot, point: int, color: Color) {
    1 <= point <= 24 && |s.points[IndexOf(point)]| > 0 && Top(s.points[IndexOf(point)]) == color
  }

  /** Which candidates the engine offers, stated without the enumeration. */
  predicate Offered(s: Snapshot, color: Color, dice: seq<int>, m: Candidate) {
    if s.bar.Of(color) > 0 then
      m.BarEntry? && m.to == EntryPoint(color) && m.die in dice && CanMoveToPoint(s, m.to, color)
    else
      match m
      case BarEntry(_, _) => false
      case Single(from, to, die) =>
        HoldsTop(s, from, color) && die in dice && to == Dest(color, from, die) &&
        1 <= to <= 24 && CanMoveToPoint(s, to, color)
      case Compound(from, to, via, ds) =>
        |dice| == 2 && HoldsTop(s, from, color) && to == Dest(color, from, dice[0] + dice[1]) && 1 <= to <= 24 &&
        ((ds == [dice[0], dice[1]] && via == Dest(color, from, dice[0]) && LegsOpen(s, color, from, to, dice[0])) ||
         (ds == [dice[1], dice[0]] && via == Dest(color, from, dice[1]) && LegsOpen(s, color, from, to, dice[1])))
  }

  // ---------------------------------------------------------------------
  // The verdict on a request, as a function

  /** JS truthiness of an endpoint: an absent value and the number 0 are falsy. */
  predicate Truthy(e: Endpoint) {
    !(e.Missing? || e == Pt(0))
  }

  /** `m.from === parseInt(move.from) && m.to === parseInt(move.to)`:
      'bar' and 'off' parse to NaN, which equals nothing, and a bar entry's
      own `from` is the string 'bar', which equals no number. */
  predicate Matches(m: Candidate, move: Request) {
    !m.BarEntry? && move.from.Pt? && move.to.Pt? && m.from == move.from.n && m.to == move.to.n
  }

  /** `Array.prototype.find`: the first matching candidate. */
  function FindMatch(moves: seq<Candidate>, move: Request): Option<Candidate>
    decreases |moves|
  {
    if moves == [] then None
    else if Matches(moves[0], move) then Some(moves[0])
    else FindMatch(moves[1..], move)
  }

  function Abs(x: int): int {
    if x < 0 then -x else x
  }

  /** The sum-distance branch: the request spans the two dice in either
      direction (only the distance is compared) and one die order has both
      legs open. A 'bar' or 'off' endpoint makes the distance NaN. */
  predicate SumMatches(s: Snapshot, move: Request, color: Color, dice: seq<int>)
    requires |dice| == 2
  {
    move.from.Pt? && move.to.Pt? && Abs(move.from.n - move.to.n) == dice[0] + dice[1] &&
    (LegsOpen(s, color, move.from.n, move.to.n, dice[0]) || LegsOpen(s, color, move.from.n, move.to.n, dice[1]))
  }

  /** `indexOf`: the first position of x, or -1. */
  function FirstIndex(xs: seq<int>, x: int): int
    decreases |xs|
  {
    if xs == [] then -1
    else if xs[0] == x then 0
    else
      var k := FirstIndex(xs[1..], x);
      if k < 0 then -1 else k + 1
  }

  /** `splice(start, 1)`: a negative start counts from the end. */
  function SpliceOne(xs: seq<int>, start: int): seq<int> {
    var i := if start < 0 then (if |xs| + start < 0 then 0 else |xs| + start)
             else if start > |xs| then |xs| else start;
    if i < |xs| then xs[..i] + xs[i + 1..] else xs
  }

  function Validate(s: Snapshot, move: Request, color: Color, dice: seq<int>): Verdict {
    if !Truthy(move.from) || !Truthy(move.to) then Invalid(MsgCoordinates)
    else if s.bar.Of(color) > 0 && move.from != Bar then Invalid(MsgBarFirst)
    else if |dice| == 2 && SumMatches(s, move, color, dice) then Valid([])
    else
      match FindMatch(AvailableMoves(s, color, dice), move)
      case None => Invalid(MsgNotAvailable)
      case Some(m) =>
        if m.Compound? then Valid([]) else Valid(SpliceOne(dice, FirstIndex(dice, m.die)))
  }

  // ---------------------------------------------------------------------
  // The engine's methods

  /** Both legs of a two-die move checked as the engine does: the first
      against the board, then the second on a clone that has made the first
      leg. */
  method LegsOpenOnClone(board: Board, color: Color, from: int, to: int, first: int) returns (r: bool)
    requires board.Valid()
    ensures r == LegsOpen(board.GetState(), color, from, to, first)
  {
    var mid := Dest(color, from, first);
    if !CanMoveToPoint(board.GetState(), mid, color) {
      return false;
    }
    var tempBoard := board.Clone();
    var moved := tempBoard.MakeMove(from, mid);
    r := CanMoveToPoint(tempBoard.GetState(), to, color);
  }

  /** The board points whose top checker is the colour's. */
  method CollectPlayerPoints(board: Board, color: Color) returns (playerPoints: seq<int>)
    requires board.Valid()
    ensures playerPoints == PlayerPoints(board.GetState(), color, 24)
  {
    var boardState := board.GetState();
    playerPoints := [];
    for i := 0 to 24
      invariant playerPoints == PlayerPoints(boardState, color, i)
    {
      var point := boardState.points[i];
      if |point| > 0 && Top(point) == color {
        var pointNumber := BoardIndexToPoint(i);
        if pointNumber.Some? {
          playerPoints := playerPoints + [pointNumber.value];
        }
      }
    }
  }

  /** The single-die moves from one point, die by die. */
  method SinglesFrom(board: Board, color: Color, point: int, dice: seq<int>) returns (moves: seq<Candidate>)
    requires board.Valid()
    ensures moves == SingleFrom(board.GetState(), color, point, dice)
  {
    moves := [];
    for j := 0 to |dice|
      invariant moves == SingleFrom(board.GetState(), color, point, dice[..j])
    {
      assert dice[..j + 1][..j] == dice[..j];
      var die := dice[j];
      var to := Dest(color, point, die);
      if 1 <= to <= 24 && CanMoveToPoint(board.GetState(), to, color) {
        moves := moves + [Single(point, to, die)];
      }
    }
    assert dice[..|dice|] == dice;
  }

  /** The compound moves from one point, in the order `[d0, d1]`, `[d1, d0]`. */
  method CompoundsFrom(board: Board, color: Color, point: int, d0: int, d1: int) returns (moves: seq<Candidate>)
    requires board.Valid()
    ensures moves == CompoundFrom(board.GetState(), color, point, d0, d1)
  {
    moves := [];
    var distance := d0 + d1;
    var to := Dest(color, point, distance);
    if 1 <= to <= 24 {
      var mid1 := Dest(color, point, d0);
      var mid2 := Dest(color, point, d1);
      var open1 := LegsOpenOnClone(board, color, point, to, d0);
      if open1 {
        moves := moves + [Compound(point, to, mid1, [d0, d1])];
      }
      var open2 := LegsOpenOnClone(board, color, point, to, d1);
      if open2 {
        moves := moves + [Compound(point, to, mid2, [d1, d0])];
      }
    }
  }

  /** One entry move per die while the entry point is open. */
  method BarEntries(board: Board, color: Color, dice: seq<int>) returns (moves: seq<Candidate>)
    requires board.Valid()
    ensures moves == BarMoves(board.GetState(), color, dice)
  {
    moves := [];
    for k := 0 to |dice|
      invariant moves == BarMoves(board.GetState(), color, dice[..k])
    {
      assert dice[..k + 1][..k] == dice[..k];
      var entryPoint := EntryPoint(color);
      if CanMoveToPoint(board.GetState(), entryPoint, color) {
        moves := moves + [BarEntry(entryPoint, dice[k])];
      }
    }
    assert dice[..|dice|] == dice;
  }

  /** The single-die moves from every given point, point by point. */
  method SinglesAll(board: Board, color: Color, playerPoints: seq<int>, dice: seq<int>) returns (moves: seq<Candidate>)
    requires board.Valid()
    ensures moves == SingleMoves(board.GetState(), color, playerPoints, dice)
  {
    moves := [];
    for k := 0 to |playerPoints|
      invariant moves == SingleMoves(board.GetState(), color, playerPoints[..k], dice)
    {
      assert playerPoints[..k + 1][..k] == playerPoints[..k];
      var fromPoint := SinglesFrom(board, color, playerPoints[k], dice);
      moves := moves + fromPoint;
    }
    assert playerPoints[..|playerPoints|] == playerPoints;
  }

  /** The compound moves from every given point, point by point. */
  method CompoundsAll(board: Board, color: Color, playerPoints: seq<int>, d0: int, d1: int) returns (moves: seq<Candidate>)
    requires board.Valid()
    ensures moves == CompoundMoves(board.GetState(), color, playerPoints, d0, d1)
  {
    moves := [];
    for k := 0 to |playerPoints|
      invariant moves == CompoundMoves(board.GetState(), color, playerPoints[..k], d0, d1)
    {
      assert playerPoints[..k + 1][..k] == playerPoints[..k];
      var fromPoint := CompoundsFrom(board, color, playerPoints[k], d0, d1);
      moves := moves + fromPoint;
    }
    assert playerPoints[..|playerPoints|] == playerPoints;
  }

  method GetAvailableMoves(board: Board, color: Color, dice: seq<int>) returns (moves: seq<Candidate>)
    requires board.Valid()
    ensures moves == AvailableMoves(board.GetState(), color, dice)
  {
    var boardState := board.GetState();
    if boardState.bar.Of(color) > 0 {
      moves := BarEntries(board, color, dice);
      return;
    }
    var playerPoints := CollectPlayerPoints(board, color);
    moves := SinglesAll(board, color, playerPoints, dice);
    if |dice| == 2 {
      var compound := CompoundsAll(board, color, playerPoints, dice[0], dice[1]);
      moves := moves + compound;
    }
  }

  method ValidateMove(board: Board, move: Request, color: Color, dice: seq<int>) returns (v: Verdict)
    requires board.Valid()
    ensures v == Validate(board.GetState(), move, color, dice)
  {
    if !Truthy(move.from) || !Truthy(move.to) {
      return Invalid(MsgCoordinates);
    }

    var boardState := board.GetState();
    if boardState.bar.Of(color) > 0 && move.from != Bar {
      return Invalid(MsgBarFirst);
    }

    var availableMoves := GetAvailableMoves(board, color, dice);

    // A 'bar' or 'off' endpoint makes the distance NaN, which equals no sum.
    if |dice| == 2 && move.from.Pt? && move.to.Pt? {
      var from, to := move.from.n, move.to.n;
      var distance := Abs(from - to);
      var sum := dice[0] + dice[1];
      if distance == sum {
        var open1 := LegsOpenOnClone(board, color, from, to, dice[0]);
        if open1 {
          return Valid([]);
        }
        var open2 := LegsOpenOnClone(board, color, from, to, dice[1]);
        if open2 {
          return Valid([]);
        }
      }
    }

    var validMove := FindMatch(availableMoves, move);
    if validMove.None? {
      return Invalid(MsgNotAvailable);
    }
    if !validMove.value.Compound? {
      var remainingDice := dice;
      remainingDice := SpliceOne(remainingDice, FirstIndex(remainingDice, validMove.value.die));
      return Valid(remainingDice);
    }
    return Valid([]);
  }

  // ---------------------------------------------------------------------
  // Lemmas: canMoveToPoint, canBearOff

  /** Which board point's stack `canMoveToPoint` inspects: for black on
      points 1..12 the point itself, for every other case a different point,
      so its blocked-point answer is about another stack than the one the
      board moves checkers onto. */
  lemma CanMoveToPointReads(c: Color, p: int)
    requires 1 <= p <= 24
    ensures 0 <= RulesIndex(c, p) < 24
    ensures RulesIndex(c, p) == IndexOf(
      if c == White then (if p <= 12 then p + 12 else 25 - p)
      else (if p <= 12 then p else 37 - p))
    ensures RulesIndex(c, p) == IndexOf(p) <==> c == Black && p <= 12
  {
  }

  /** The two checks disagree: white is told point 2 is open although the
      board holds two black checkers there, because the engine reads the
      stack of point 14. */
  lemma BlockedPointLooksOpen(s: Snapshot)
    requires s.points[IndexOf(2)] == [Black, Black]
    requires s.points[IndexOf(14)] == []
    ensures CanMoveToPoint(s, 2, White)
  {
  }

  /** Because of that, an offered and accepted move can land on two
      checkers of the other colour, and the board then stacks the mover on
      them: only a lone checker is hit, so one point comes to hold both
      colours. Here white rolls 6-5 with two checkers on point 24 and two
      black ones on point 18, while point 7 (the stack read for white's
      point 18) is empty. */
  lemma OfferedMoveMixesStack(s: Snapshot)
    requires s.bar.Of(White) == 0
    requires s.points[IndexOf(24)] == [White, White]
    requires s.points[IndexOf(18)] == [Black, Black]
    requires s.points[IndexOf(7)] == []
    ensures Single(24, 18, 6) in AvailableMoves(s, White, [6, 5])
    ensures Validate(s, Request(Pt(24), Pt(18)), White, [6, 5]).Valid?
    ensures MakeMoveEffect(s, 24, 18).1.points[IndexOf(18)] == [Black, Black, White]
  {
    var dice := [6, 5];
    assert CanMoveToPoint(s, 18, White);
    assert Offered(s, White, dice, Single(24, 18, 6));
    AvailableMovesSpec(s, White, dice, Single(24, 18, 6));
    ValidateSingleMatch(s, White, dice, 24, 18, 6);
    MakeMoveOutcome(s, 24, 18);
  }

  lemma CanBearOffStricter(s: Snapshot, from: int, c: Color)
    ensures CanBearOff(s, from, c) ==> s.bar.Of(c) == 0 && AllHome(s, c)
    ensures !InHome(c, from) ==> !CanBearOff(s, from, c)
    ensures s.bar.Of(c) > 0 ==> !CanBearOff(s, from, c)
  {
  }

  /** White with checkers only on points 6 and 4 and nothing on the bar:
      both bear-off checks pass. */
  lemma HomeBoardBearOff(s: Snapshot)
    requires s.bar.Of(White) == 0
    requires forall i :: 0 <= i < 24 && White in s.points[i] ==> i == IndexOf(6) || i == IndexOf(4)
    ensures AllHome(s, White)
    ensures CanBearOff(s, 6, White)
  {
  }

  // ---------------------------------------------------------------------
  // Lemmas: the candidate list

  lemma {:induction false} BarMovesShape(s: Snapshot, color: Color, dice: seq<int>)
    ensures var moves := BarMoves(s, color, dice);
            |moves| == (if CanMoveToPoint(s, EntryPoint(color), color) then |dice| else 0) &&
            forall k :: 0 <= k < |moves| ==> moves[k] == BarEntry(EntryPoint(color), dice[k])
    decreases |dice|
  {
    if dice != [] {
      BarMovesShape(s, color, dice[..|dice| - 1]);
    }
  }

  lemma {:induction false} PlayerPointsSpec(s: Snapshot, color: Color, n: nat, p: int)
    requires n <= 24
    ensures p in PlayerPoints(s, color, n) <==> HoldsTop(s, p, color) && IndexOf(p) < n
    decreases n
  {
    if n > 0 {
      PlayerPointsSpec(s, color, n - 1, p);
      IndexPointRoundTrip(n - 1);
      if 1 <= p <= 24 {
        PointIndexRoundTrip(p);
      }
    }
  }

  lemma {:induction false} SingleFromSpec(s: Snapshot, color: Color, point: int, dice: seq<int>, m: Candidate)
    ensures m in SingleFrom(s, color, point, dice) <==>
      m.Single? && m.from == point && m.die in dice && m.to == Dest(color, point, m.die) &&
      1 <= m.to <= 24 && CanMoveToPoint(s, m.to, color)
    decreases |dice|
  {
    if dice != [] {
      SingleFromSpec(s, color, point, dice[..|dice| - 1], m);
      assert dice == dice[..|dice| - 1] + [dice[|dice| - 1]];
    }
  }

  lemma {:induction false} SingleMovesSpec(s: Snapshot, color: Color, points: seq<int>, dice: seq<int>, m: Candidate)
    ensures m in SingleMoves(s, color, points, dice) <==>
      m.Single? && m.from in points && m in SingleFrom(s, color, m.from, dice)
    decreases |points|
  {
    if points != [] {
      var n := |points| - 1;
      SingleMovesSpec(s, color, points[..n], dice, m);
      assert points == points[..n] + [points[n]];
      SingleFromSpec(s, color, points[n], dice, m);
    }
  }

  lemma CompoundFromSpec(s: Snapshot, color: Color, point: int, d0: int, d1: int, m: Candidate)
    ensures m in CompoundFrom(s, color, point, d0, d1) <==>
      m.Compound? && m.from == point && m.to == Dest(color, point, d0 + d1) && 1 <= m.to <= 24 &&
      ((m.dice == [d0, d1] && m.via == Dest(color, point, d0) && LegsOpen(s, color, point, m.to, d0)) ||
       (m.dice == [d1, d0] && m.via == Dest(color, point, d1) && LegsOpen(s, color, point, m.to, d1)))
  {
  }

  lemma {:induction false} CompoundMovesSpec(s: Snapshot, color: Color, points: seq<int>, d0: int, d1: int, m: Candidate)
    ensures m in CompoundMoves(s, color, points, d0, d1) <==>
      m.Compound? && m.from in points && m in CompoundFrom(s, color, m.from, d0, d1)
    decreases |points|
  {
    if points != [] {
      var n := |points| - 1;
      CompoundMovesSpec(s, color, points[..n], d0, d1, m);
      assert points == points[..n] + [points[n]];
      CompoundFromSpec(s, color, points[n], d0, d1, m);
    }
  }

  /** The enumeration offers exactly the candidates `Offered` describes:
      bar entries on an open entry point, one per die, while the bar is
      non-empty; otherwise single-die moves from every point the colour
      tops, and compound moves (two dice only) whose recorded `via` and die
      order are the first leg actually simulated. */
  lemma AvailableMovesSpec(s: Snapshot, color: Color, dice: seq<int>, m: Candidate)
    ensures m in AvailableMoves(s, color, dice) <==> Offered(s, color, dice, m)
  {
    if s.bar.Of(color) > 0 {
      BarMovesShape(s, color, dice);
      var moves := BarMoves(s, color, dice);
      if m in moves {
        var k :| 0 <= k < |moves| && moves[k] == m;
        assert m.die in dice;
      }
      if Offered(s, color, dice, m) {
        var k :| 0 <= k < |dice| && dice[k] == m.die;
        assert moves[k] == m;
      }
    } else {
      var points := PlayerPoints(s, color, 24);
      var singles := SingleMoves(s, color, points, dice);
      var compounds := if |dice| == 2 then CompoundMoves(s, color, points, dice[0], dice[1]) else [];
      assert AvailableMoves(s, color, dice) == singles + compounds;
      SingleMovesSpec(s, color, points, dice, m);
      match m
      case BarEntry(_, _) =>
        if |dice| == 2 {
          CompoundMovesSpec(s, color, points, dice[0], dice[1], m);
        }
      case Single(from, _, _) =>
        PlayerPointsSpec(s, color, 24, from);
        SingleFromSpec(s, color, from, dice, m);
        if |dice| == 2 {
          CompoundMovesSpec(s, color, points, dice[0], dice[1], m);
        }
      case Compound(from, _, _, _) =>
        PlayerPointsSpec(s, color, 24, from);
        if |dice| == 2 {
          CompoundMovesSpec(s, color, points, dice[0], dice[1], m);
          CompoundFromSpec(s, color, from, dice[0], dice[1], m);
        }
    }
  }

  /** While the bar holds a checker of the colour, the list is one entry
      move to the entry point per die, or empty when that point is closed. */
  lemma BarFirst(s: Snapshot, color: Color, dice: seq<int>)
    requires s.bar.Of(color) > 0
    ensures var moves := AvailableMoves(s, color, dice);
            |moves| == (if CanMoveToPoint(s, EntryPoint(color), color) then |dice| else 0) &&
            forall k :: 0 <= k < |moves| ==> moves[k] == BarEntry(EntryPoint(color), dice[k])
  {
    BarMovesShape(s, color, dice);
  }

  /** The opening position with white to play 6-3: the compound move
      24 -> 15 through 18 is offered. */
  lemma OpeningCompound()
    ensures Compound(24, 15, 18, [6, 3]) in AvailableMoves(InitialPosition(), White, [6, 3])
  {
    var s := InitialPosition();
    assert HoldsTop(s, 24, White);
    assert CanMoveToPoint(s, 18, White);
    var after := MakeMoveEffect(s, 24, 18).1;
    assert after.points[RulesIndex(White, 15)] == s.points[9] == [];
    assert LegsOpen(s, White, 24, 15, 6);
    AvailableMovesSpec(s, White, [6, 3], Compound(24, 15, 18, [6, 3]));
  }

  // ---------------------------------------------------------------------
  // Lemmas: the verdict

  /** `find` returns the first matching candidate, and nothing exactly
      when no candidate matches. */
  lemma {:induction false} FindMatchSpec(moves: seq<Candidate>, move: Request)
    ensures FindMatch(moves, move).Some? ==>
      FindMatch(moves, move).value in moves && Matches(FindMatch(moves, move).value, move)
    ensures FindMatch(moves, move).Some? ==>
      exists k :: 0 <= k < |moves| && moves[k] == FindMatch(moves, move).value &&
                  forall j :: 0 <= j < k ==> !Matches(moves[j], move)
    ensures FindMatch(moves, move).None? <==> forall m :: m in moves ==> !Matches(m, move)
    decreases |moves|
  {
    if moves != [] {
      FindMatchSpec(moves[1..], move);
      assert forall m :: m in moves ==> m == moves[0] || m in moves[1..];
      if Matches(moves[0], move) {
        assert moves[0] == FindMatch(moves, move).value;
      } else if FindMatch(moves[1..], move).Some? {
        var rest := moves[1..];
        var k :| 0 <= k < |rest| && rest[k] == FindMatch(rest, move).value &&
                 forall j :: 0 <= j < k ==> !Matches(rest[j], move);
        forall j | 0 <= j < k + 1
          ensures !Matches(moves[j], move)
        {
          if j > 0 {
            assert moves[j] == rest[j - 1];
          }
        }
        assert moves[k + 1] == FindMatch(moves, move).value;
      }
    }
  }

  /** Searching a concatenation: the first list's match wins. */
  lemma {:induction false} FindMatchConcat(a: seq<Candidate>, b: seq<Candidate>, move: Request)
    ensures FindMatch(a + b, move) == if FindMatch(a, move).Some? then FindMatch(a, move) else FindMatch(b, move)
    decreases |a|
  {
    if a == [] {
      assert a + b == b;
    } else {
      assert (a + b)[0] == a[0] && (a + b)[1..] == a[1..] + b;
      FindMatchConcat(a[1..], b, move);
    }
  }

  lemma {:induction false} FirstIndexSpec(xs: seq<int>, x: int)
    ensures x in xs ==> 0 <= FirstIndex(xs, x) < |xs| && xs[FirstIndex(xs, x)] == x
    ensures x !in xs ==> FirstIndex(xs, x) == -1
    ensures forall j :: 0 <= j < FirstIndex(xs, x) ==> xs[j] != x
    decreases |xs|
  {
    if xs != [] {
      FirstIndexSpec(xs[1..], x);
      forall j | 0 <= j < FirstIndex(xs, x)
        ensures xs[j] != x
      {
        if j > 0 {
          assert xs[j] == xs[1..][j - 1];
        }
      }
    }
  }

  /** Removing the first occurrence of a die that is in the roll leaves the
      roll one shorter with that die taken out once, at its first place. */
  lemma RemoveDie(dice: seq<int>, d: int)
    requires d in dice
    ensures var rest := SpliceOne(dice, FirstIndex(dice, d));
            |rest| == |dice| - 1 && multiset(rest) == multiset(dice) - multiset{d} &&
            exists i :: 0 <= i < |dice| && dice[i] == d && d !in dice[..i] && rest == dice[..i] + dice[i + 1..]
  {
    FirstIndexSpec(dice, d);
    var i := FirstIndex(dice, d);
    assert dice == dice[..i] + [dice[i]] + dice[i + 1..];
    assert d !in dice[..i];
  }

  lemma ValidateMissingCoordinates(s: Snapshot, move: Request, color: Color, dice: seq<int>)
    requires move.from.Missing? || move.to.Missing? || move.from == Pt(0) || move.to == Pt(0)
    ensures Validate(s, move, color, dice) == Invalid(MsgCoordinates)
  {
  }

  lemma ValidateBarFirst(s: Snapshot, move: Request, color: Color, dice: seq<int>)
    requires Truthy(move.from) && Truthy(move.to)
    requires s.bar.Of(color) > 0 && move.from != Bar
    ensures Validate(s, move, color, dice) == Invalid(MsgBarFirst)
  {
  }

  /** Only point-to-point requests are ever accepted: a 'bar' source or an
      'off' destination can never be valid, so bar entry and bearing off
      cannot happen through the engine. */
  lemma ValidOnlyPointToPoint(s: Snapshot, move: Request, color: Color, dice: seq<int>)
    ensures Validate(s, move, color, dice).Valid? ==> move.from.Pt? && move.to.Pt?
  {
    FindMatchSpec(AvailableMoves(s, color, dice), move);
  }

  /** The sum-distance branch, once it fires, accepts the request and
      uses the whole roll. */
  lemma ValidateSumBranch(s: Snapshot, move: Request, color: Color, dice: seq<int>)
    requires Truthy(move.from) && Truthy(move.to) && !(s.bar.Of(color) > 0 && move.from != Bar)
    requires |dice| == 2 && SumMatches(s, move, color, dice)
    ensures Validate(s, move, color, dice) == Valid([])
  {
  }

  /** With die faces, every offered compound request is taken by the
      sum-distance branch: its distance is the sum of the two dice and the
      legs of its recorded order are open. So the compound-match return
      after the candidate search is never reached with a real roll, and an
      offered compound request is always accepted with the whole roll used. */
  lemma CompoundTakesSumBranch(s: Snapshot, color: Color, dice: seq<int>, m: Candidate)
    requires m.Compound? && Offered(s, color, dice, m)
    requires forall k :: 0 <= k < |dice| ==> 1 <= dice[k] <= 6
    ensures |dice| == 2 && SumMatches(s, Request(Pt(m.from), Pt(m.to)), color, dice)
    ensures Validate(s, Request(Pt(m.from), Pt(m.to)), color, dice) == Valid([])
  {
  }

  /** A request with the endpoints of an offered single-die move is
      accepted (unless the sum branch fires first) and leaves the roll with
      the first occurrence of that die removed. */
  lemma ValidateSingleMatch(s: Snapshot, color: Color, dice: seq<int>, from: int, to: int, d: int)
    requires Offered(s, color, dice, Single(from, to, d))
    requires !(|dice| == 2 && SumMatches(s, Request(Pt(from), Pt(to)), color, dice))
    ensures var v := Validate(s, Request(Pt(from), Pt(to)), color, dice);
            v.Valid? && |v.remainingDice| == |dice| - 1 &&
            multiset(v.remainingDice) == multiset(dice) - multiset{d} &&
            exists i :: 0 <= i < |dice| && dice[i] == d && d !in dice[..i] &&
                        v.remainingDice == dice[..i] + dice[i + 1..]
  {
    var move := Request(Pt(from), Pt(to));
    var single := Single(from, to, d);
    var points := PlayerPoints(s, color, 24);
    var singles := SingleMoves(s, color, points, dice);
    var compounds := if |dice| == 2 then CompoundMoves(s, color, points, dice[0], dice[1]) else [];
    assert AvailableMoves(s, color, dice) == singles + compounds;
    PlayerPointsSpec(s, color, 24, from);
    SingleFromSpec(s, color, from, dice, single);
    SingleMovesSpec(s, color, points, dice, single);
    FindMatchSpec(singles, move);
    FindMatchConcat(singles, compounds, move);
    var m := FindMatch(singles, move).value;
    SingleMovesSpec(s, color, points, dice, m);
    SingleFromSpec(s, color, m.from, dice, m);
    assert m == single;
    RemoveDie(dice, d);
  }

  /** Without an offered single-die move between two points, the search
      through the single-die candidates finds nothing for them. */
  lemma NoSingleMatch(s: Snapshot, color: Color, dice: seq<int>, from: int, to: int)
    requires s.bar.Of(color) == 0
    requires forall d :: !Offered(s, color, dice, Single(from, to, d))
    ensures FindMatch(SingleMoves(s, color, PlayerPoints(s, color, 24), dice), Request(Pt(from), Pt(to))).None?
  {
    var move := Request(Pt(from), Pt(to));
    var points := PlayerPoints(s, color, 24);
    var singles := SingleMoves(s, color, points, dice);
    var compounds := if |dice| == 2 then CompoundMoves(s, color, points, dice[0], dice[1]) else [];
    assert AvailableMoves(s, color, dice) == singles + compounds;
    forall c | c in singles
      ensures !Matches(c, move)
    {
      SingleMovesSpec(s, color, points, dice, c);
      AvailableMovesSpec(s, color, dice, c);
      assert !Offered(s, color, dice, Single(from, to, c.die));
    }
    FindMatchSpec(singles, move);
  }

  /** A request whose endpoints match only an offered compound move, and
      that the sum branch does not take, is accepted and uses the whole
      roll. With die faces the sum branch always takes such a request (see
      CompoundTakesSumBranch), so this case needs dice summing below zero. */
  lemma ValidateCompoundMatch(s: Snapshot, color: Color, dice: seq<int>, m: Candidate)
    requires m.Compound? && Offered(s, color, dice, m)
    requires forall d :: !Offered(s, color, dice, Single(m.from, m.to, d))
    requires !(|dice| == 2 && SumMatches(s, Request(Pt(m.from), Pt(m.to)), color, dice))
    ensures Validate(s, Request(Pt(m.from), Pt(m.to)), color, dice) == Valid([])
  {
    var move := Request(Pt(m.from), Pt(m.to));
    var points := PlayerPoints(s, color, 24);
    var singles := SingleMoves(s, color, points, dice);
    var compounds := CompoundMoves(s, color, points, dice[0], dice[1]);
    assert AvailableMoves(s, color, dice) == singles + compounds;
    NoSingleMatch(s, color, dice, m.from, m.to);
    FindMatchConcat(singles, compounds, move);
    AvailableMovesSpec(s, color, dice, m);
    SingleMovesSpec(s, color, points, dice, m);
    FindMatchSpec(compounds, move);
    CompoundMovesSpec(s, color, points, dice[0], dice[1], FindMatch(compounds, move).value);
  }

  /** A request that no offered candidate matches, and that the sum branch
      does not take, is refused as not available. */
  lemma ValidateNoMatch(s: Snapshot, move: Request, color: Color, dice: seq<int>)
    requires Truthy(move.from) && Truthy(move.to) && !(s.bar.Of(color) > 0 && move.from != Bar)
    requires !(|dice| == 2 && SumMatches(s, move, color, dice))
    requires forall m :: Offered(s, color, dice, m) ==> !Matches(m, move)
    ensures Validate(s, move, color, dice) == Invalid(MsgNotAvailable)
  {
    var moves := AvailableMoves(s, color, dice);
    forall m | m in moves
      ensures !Matches(m, move)
    {
      AvailableMovesSpec(s, color, dice, m);
    }
    FindMatchSpec(moves, move);
  }

  /** An offered single-die or compound move is always accepted. */
  lemma OfferedIsValid(s: Snapshot, color: Color, dice: seq<int>, m: Candidate)
    requires m in AvailableMoves(s, color, dice) && !m.BarEntry?
    ensures Validate(s, Request(Pt(m.from), Pt(m.to)), color, dice).Valid?
  {
    AvailableMovesSpec(s, color, dice, m);
    FindMatchSpec(AvailableMoves(s, color, dice), Request(Pt(m.from), Pt(m.to)));
  }

  /** An offered bar entry is never accepted. */
  lemma BarEntryNeverValid(s: Snapshot, color: Color, dice: seq<int>, to: int)
    ensures Validate(s, Request(Bar, Pt(to)), color, dice).Invalid?
  {
    ValidOnlyPointToPoint(s, Request(Bar, Pt(to)), color, dice);
  }

  /** The sum branch checks neither direction nor the source: on the
      opening board white's 6-3 request from the empty point 6 up to 15 is
      accepted and uses the whole roll. */
  lemma SumBranchAcceptsBackwardFromEmpty()
    ensures Validate(InitialPosition(), Request(Pt(6), Pt(15)), White, [6, 3]) == Valid([])
  {
    var s := InitialPosition();
    assert CanMoveToPoint(s, 3, White);
    assert CanMoveToPoint(s, 15, White);
    assert LegsOpen(s, White, 6, 15, 3);
  }
}

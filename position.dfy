/** Value-level view of the board of server/board.js: checker colours, the
    asymmetric point-number/board-index mapping, the snapshot that
    `getState` hands out, and the effect of each board mutation written as
    a function from snapshot to snapshot. The class in board.dfy is proved
    against these functions, and the rule engine reasons with them. */
module Position {

  datatype Option<T> = None | Some(value: T)

  datatype Color = White | Black {
    function Opponent(): Color {
      if this == White then Black else White
    }
  }

  const PointCount := 24
  const CheckersPerColor := 15

  /** A per-colour count. The bar and off lists of the board only ever hold
      copies of their own colour, so their lengths are all they record. */
  datatype Tally = Tally(white: nat, black: nat) {
    function Of(c: Color): nat {
      if c == White then white else black
    }

    function Inc(c: Color): (t: Tally)
      ensures t.Of(c) == Of(c) + 1 && t.Of(c.Opponent()) == Of(c.Opponent())
    {
      if c == White then Tally(white + 1, black) else Tally(white, black + 1)
    }

    function Dec(c: Color): (t: Tally)
      requires Of(c) > 0
      ensures t.Of(c) == Of(c) - 1 && t.Of(c.Opponent()) == Of(c.Opponent())
    {
      if c == White then Tally(white - 1, black) else Tally(white, black - 1)
    }
  }

  const EmptyStacks: seq<seq<Color>> := seq(24, _ => [])

  /** The 24 point stacks, by board index; each stack lists its checkers
      bottom first, so the last element is the top checker. */
  type Stacks = s: seq<seq<Color>> | |s| == 24 witness EmptyStacks

  /** The snapshot `{points, bar, off}` of a board. */
  datatype Snapshot = Snapshot(points: Stacks, bar: Tally, off: Tally)

  // ---------------------------------------------------------------------
  // Point numbers (1..24, player-facing) and board indices (0..23)

  /** Points 1..12 sit at indices 0..11, points 24..13 at indices 12..23.
      A zero (falsy) or out-of-range point has no index. */
  function PointToBoardIndex(point: int): (r: Option<int>)
    ensures r.Some? <==> 1 <= point <= 24
    ensures r.Some? ==> 0 <= r.value < 24
  {
    if point == 0 then None
    else if 1 <= point <= 12 then Some(point - 1)
    else if 13 <= point <= 24 then Some(36 - point)
    else None
  }

  function BoardIndexToPoint(index: int): (r: Option<int>)
    ensures r.Some? <==> 0 <= index < 24
    ensures r.Some? ==> 1 <= r.value <= 24
  {
    if index < 0 || index >= 24 then None
    else if index <= 11 then Some(index + 1)
    else Some(36 - index)
  }

  /** The board index of a valid point number. */
  function IndexOf(point: int): int
    requires 1 <= point <= 24
  {
    PointToBoardIndex(point).value
  }

  /** The point number stored at a valid board index. */
  function PointAt(index: int): int
    requires 0 <= index < 24
  {
    BoardIndexToPoint(index).value
  }

  lemma PointIndexRoundTrip(p: int)
    requires 1 <= p <= 24
    ensures PointToBoardIndex(p).Some?
    ensures BoardIndexToPoint(PointToBoardIndex(p).value) == Some(p)
  {
  }

  lemma IndexPointRoundTrip(i: int)
    requires 0 <= i < 24
    ensures BoardIndexToPoint(i).Some?
    ensures PointToBoardIndex(BoardIndexToPoint(i).value) == Some(i)
  {
  }

  /** The mapping is a bijection between 1..24 and 0..23. */
  lemma IndexOfInjective(p: int, q: int)
    requires 1 <= p <= 24 && 1 <= q <= 24
    ensures IndexOf(p) == IndexOf(q) <==> p == q
  {
    PointIndexRoundTrip(p);
    PointIndexRoundTrip(q);
  }

  // ---------------------------------------------------------------------
  // Stacks

  function Top(st: seq<Color>): Color
    requires |st| > 0
  {
    st[|st| - 1]
  }

  function Pop(st: seq<Color>): seq<Color>
    requires |st| > 0
  {
    st[..|st| - 1]
  }

  /** How many checkers of colour c a stack holds (`filter(...).length`). */
  function Occurrences(st: seq<Color>, c: Color): nat {
    multiset(st)[c]
  }

  /** Checkers of colour c over a run of stacks, summed front to back. */
  function PointsCount(ps: seq<seq<Color>>, c: Color): nat {
    if ps == [] then 0 else PointsCount(ps[..|ps| - 1], c) + Occurrences(ps[|ps| - 1], c)
  }

  /** `getPieceCount`: checkers of colour c on the points, the bar and off. */
  function PieceCount(s: Snapshot, c: Color): nat {
    PointsCount(s.points, c) + s.bar.Of(c) + s.off.Of(c)
  }

  /** Every colour has all of its 15 checkers somewhere. */
  predicate Conserved(s: Snapshot) {
    PieceCount(s, White) == CheckersPerColor && PieceCount(s, Black) == CheckersPerColor
  }

  lemma {:induction false} OccurrencesPop(st: seq<Color>, c: Color)
    requires |st| > 0
    ensures Occurrences(st, c) == Occurrences(Pop(st), c) + (if Top(st) == c then 1 else 0)
  {
    assert st == Pop(st) + [Top(st)];
  }

  lemma {:induction false} PointsCountUpdate(ps: seq<seq<Color>>, i: int, v: seq<Color>, c: Color)
    requires 0 <= i < |ps|
    ensures PointsCount(ps[i := v], c) + Occurrences(ps[i], c) == PointsCount(ps, c) + Occurrences(v, c)
    decreases |ps|
  {
    var n := |ps| - 1;
    assert ps[i := v][..n] == if i == n then ps[..n] else ps[..n][i := v];
    if i < n {
      PointsCountUpdate(ps[..n], i, v, c);
    }
  }

  lemma {:induction false} PointsCountAllEmpty(ps: seq<seq<Color>>, c: Color)
    requires forall k :: 0 <= k < |ps| ==> ps[k] == []
    ensures PointsCount(ps, c) == 0
    decreases |ps|
  {
    if ps != [] {
      PointsCountAllEmpty(ps[..|ps| - 1], c);
    }
  }

  // ---------------------------------------------------------------------
  // The opening layout (`setupInitialPosition`)

  /** All 15 white checkers on point 24 (index 12), all 15 black on point 1 (index 0). */
  function InitialStacks(): Stacks {
    seq(24, i => if i == 12 then seq(15, _ => White) else if i == 0 then seq(15, _ => Black) else [])
  }

  function InitialPosition(): Snapshot {
    Snapshot(InitialStacks(), Tally(0, 0), Tally(0, 0))
  }

  lemma InitialLayout()
    ensures InitialStacks()[IndexOf(24)] == seq(15, _ => White)
    ensures InitialStacks()[IndexOf(1)] == seq(15, _ => Black)
    ensures forall p :: 2 <= p <= 23 ==> InitialStacks()[IndexOf(p)] == []
  {
  }

  lemma InitialConserved()
    ensures Conserved(InitialPosition())
  {
    var w: seq<Color> := seq(15, _ => White);
    var b: seq<Color> := seq(15, _ => Black);
    assert multiset(w)[White] == 15 && multiset(w)[Black] == 0 by {
      assert forall k :: 0 <= k < |w| ==> w[k] == White;
      MultisetOfConstant(w, White);
    }
    assert multiset(b)[Black] == 15 && multiset(b)[White] == 0 by {
      assert forall k :: 0 <= k < |b| ==> b[k] == Black;
      MultisetOfConstant(b, Black);
    }
    assert InitialStacks() == EmptyStacks[12 := w][0 := b];
    forall c | c == White || c == Black
      ensures PointsCount(InitialStacks(), c) == 15
    {
      PointsCountAllEmpty(EmptyStacks, c);
      PointsCountUpdate(EmptyStacks, 12, w, c);
      PointsCountUpdate(EmptyStacks[12 := w], 0, b, c);
    }
  }

  lemma {:induction false} MultisetOfConstant(st: seq<Color>, c: Color)
    requires forall k :: 0 <= k < |st| ==> st[k] == c
    ensures multiset(st)[c] == |st| && multiset(st)[c.Opponent()] == 0
    decreases |st|
  {
    if st != [] {
      MultisetOfConstant(st[..|st| - 1], c);
      assert st == st[..|st| - 1] + [st[|st| - 1]];
    }
  }

  // ---------------------------------------------------------------------
  // Board mutations as functions on snapshots

  /** The source point of `makeMove`, when it is a valid point, holds a
      checker. */
  predicate SourceOccupied(s: Snapshot, from: int) {
    PointToBoardIndex(from).Some? ==> |s.points[PointToBoardIndex(from).value]| > 0
  }

  /** `makeMove({from, to})`: invalid point numbers or a top checker moving
      against its direction (white upwards, black downwards) are refused
      with no change; otherwise the top checker is popped, a lone checker of
      another colour on the destination (read after the pop) goes to its
      owner's bar, and the mover is pushed on the destination.
      From an empty source the mover is the value `undefined`: no direction
      check applies, nothing is popped, a lone checker of either colour on
      the destination is hit, and the `undefined` pushed there is not
      represented (the destination is left without it). */
  function MakeMoveEffect(s: Snapshot, from: int, to: int): (r: (bool, Snapshot))
    ensures !r.0 ==> r.1 == s
    ensures r.1.off == s.off
  {
    var fromIndex := PointToBoardIndex(from);
    var toIndex := PointToBoardIndex(to);
    if fromIndex.None? || toIndex.None? then (false, s)
    else
      var fi, ti := fromIndex.value, toIndex.value;
      if |s.points[fi]| == 0 then
        var toPoint := s.points[ti];
        if |toPoint| == 1 then (true, Snapshot(s.points[ti := []], s.bar.Inc(toPoint[0]), s.off))
        else (true, s)
      else
        var color := Top(s.points[fi]);
        if color == White && from < to then (false, s)
        else if color == Black && from > to then (false, s)
        else
          var popped := s.points[fi := Pop(s.points[fi])];
          var toPoint := popped[ti];
          if |toPoint| == 1 && toPoint[0] != color then
            var cleared := popped[ti := Pop(toPoint)];
            (true, Snapshot(cleared[ti := cleared[ti] + [color]], s.bar.Inc(toPoint[0]), s.off))
          else
            (true, Snapshot(popped[ti := toPoint + [color]], s.bar, s.off))
  }

  /** `moveFromBar(to, color)`: refused with no change when the colour's
      bar is empty or the destination holds two or more checkers whose
      bottom one is of another colour; otherwise the same hit rule as
      `makeMove`, one checker leaves the bar and lands on `to`. An invalid
      `to` only matters when the bar is non-empty (the board code then
      dereferences a missing point). */
  function MoveFromBarEffect(s: Snapshot, to: int, color: Color): (r: (bool, Snapshot))
    requires s.bar.Of(color) > 0 ==> PointToBoardIndex(to).Some?
    ensures !r.0 ==> r.1 == s
    ensures r.0 ==> r.1.bar.Of(color) == s.bar.Of(color) - 1
    ensures r.1.off == s.off
  {
    if s.bar.Of(color) == 0 then (false, s)
    else
      var ti := PointToBoardIndex(to).value;
      var toPoint := s.points[ti];
      if |toPoint| >= 2 && toPoint[0] != color then (false, s)
      else if |toPoint| == 1 && toPoint[0] != color then
        var hitBar := s.bar.Inc(toPoint[0]);
        (true, Snapshot(s.points[ti := [color]], hitBar.Dec(color), s.off))
      else
        (true, Snapshot(s.points[ti := toPoint + [color]], s.bar.Dec(color), s.off))
  }

  /** `bearOff(from, color)`: the top checker at `from` goes to the colour's
      off list when it is of that colour; otherwise nothing changes. */
  function BearOffEffect(s: Snapshot, from: int, color: Color): (r: (bool, Snapshot))
    requires PointToBoardIndex(from).Some?
    ensures !r.0 ==> r.1 == s
    ensures r.0 ==> r.1.off.Of(color) == s.off.Of(color) + 1
    ensures r.1.bar == s.bar
  {
    var fi := PointToBoardIndex(from).value;
    var fromPoint := s.points[fi];
    if |fromPoint| > 0 && Top(fromPoint) == color then
      (true, Snapshot(s.points[fi := Pop(fromPoint)], s.bar, s.off.Inc(color)))
    else (false, s)
  }

  // ---------------------------------------------------------------------
  // Home boards

  function HomeStart(c: Color): int { if c == White then 1 else 19 }
  function HomeEnd(c: Color): int { if c == White then 6 else 24 }

  predicate InHome(c: Color, point: int) {
    HomeStart(c) <= point <= HomeEnd(c)
  }

  /** Every stack holding a checker of colour c lies in c's home board. */
  predicate AllHome(s: Snapshot, c: Color) {
    forall i :: 0 <= i < 24 && c in s.points[i] ==> InHome(c, PointAt(i))
  }

  // ---------------------------------------------------------------------
  // Properties of the mutations

  lemma MakeMoveRefusals(s: Snapshot, from: int, to: int)
    ensures !(1 <= from <= 24 && 1 <= to <= 24) ==> MakeMoveEffect(s, from, to) == (false, s)
    ensures 1 <= from <= 24 && 1 <= to <= 24 && |s.points[IndexOf(from)]| > 0 ==>
      var top := Top(s.points[IndexOf(from)]);
      ((top == White && from < to) || (top == Black && from > to)) <==> !MakeMoveEffect(s, from, to).0
    ensures 1 <= from <= 24 && 1 <= to <= 24 && |s.points[IndexOf(from)]| == 0 ==> MakeMoveEffect(s, from, to).0
    ensures !MakeMoveEffect(s, from, to).0 ==> MakeMoveEffect(s, from, to).1 == s
  {
  }

  /** An ordinary move that is not refused: the source is popped, every
      other stack is left alone, and the bars change only by a hit. Landing
      on a lone checker of the other colour sends it to its owner's bar and
      leaves the mover alone on the point; otherwise the mover is pushed on
      top of the destination. */
  lemma MakeMoveOutcome(s: Snapshot, from: int, to: int)
    requires 1 <= from <= 24 && 1 <= to <= 24 && from != to
    requires |s.points[IndexOf(from)]| > 0
    requires MakeMoveEffect(s, from, to).0
    ensures var mover := Top(s.points[IndexOf(from)]);
            var target := s.points[IndexOf(to)];
            var after := MakeMoveEffect(s, from, to).1;
            after.points[IndexOf(from)] == Pop(s.points[IndexOf(from)]) &&
            (forall i :: 0 <= i < 24 && i != IndexOf(from) && i != IndexOf(to) ==> after.points[i] == s.points[i]) &&
            (|target| == 1 && target[0] != mover ==>
               after.points[IndexOf(to)] == [mover] && after.bar == s.bar.Inc(target[0])) &&
            (!(|target| == 1 && target[0] != mover) ==>
               after.points[IndexOf(to)] == target + [mover] && after.bar == s.bar) &&
            after.off == s.off
  {
    IndexOfInjective(from, to);
  }

  /** Landing on a lone checker of the other colour sends it to its owner's
      bar and leaves the mover alone on the point; the other stacks stay. */
  lemma MakeMoveHit(s: Snapshot, from: int, to: int)
    requires 1 <= from <= 24 && 1 <= to <= 24 && from != to
    requires |s.points[IndexOf(from)]| > 0
    requires MakeMoveEffect(s, from, to).0
    requires |s.points[IndexOf(to)]| == 1 && s.points[IndexOf(to)][0] != Top(s.points[IndexOf(from)])
    ensures var hit := s.points[IndexOf(to)][0];
            var after := MakeMoveEffect(s, from, to).1;
            after.points[IndexOf(to)] == [Top(s.points[IndexOf(from)])] &&
            after.bar.Of(hit) == s.bar.Of(hit) + 1 &&
            after.bar.Of(hit.Opponent()) == s.bar.Of(hit.Opponent()) &&
            after.points[IndexOf(from)] == Pop(s.points[IndexOf(from)]) &&
            (forall i :: 0 <= i < 24 && i != IndexOf(from) && i != IndexOf(to) ==> after.points[i] == s.points[i]) &&
            after.off == s.off
  {
    IndexOfInjective(from, to);
  }

  /** A move from an empty point hits a lone checker of either colour on
      the destination and changes nothing else; any other destination is
      left as it is. */
  lemma MakeMoveFromEmpty(s: Snapshot, from: int, to: int)
    requires 1 <= from <= 24 && 1 <= to <= 24 && s.points[IndexOf(from)] == []
    ensures var (ok, after) := MakeMoveEffect(s, from, to);
            var target := s.points[IndexOf(to)];
            ok && after.off == s.off &&
            (|target| == 1 ==>
               after.points == s.points[IndexOf(to) := []] &&
               after.bar.Of(target[0]) == s.bar.Of(target[0]) + 1 &&
               after.bar.Of(target[0].Opponent()) == s.bar.Of(target[0].Opponent())) &&
            (|target| != 1 ==> after == s)
  {
  }

  lemma OccurrencesPush(st: seq<Color>, x: Color, c: Color)
    ensures Occurrences(st + [x], c) == Occurrences(st, c) + (if x == c then 1 else 0)
  {
  }

  lemma MakeMoveConserves(s: Snapshot, from: int, to: int, c: Color)
    ensures PieceCount(MakeMoveEffect(s, from, to).1, c) == PieceCount(s, c)
  {
    if 1 <= from <= 24 && 1 <= to <= 24 {
      if |s.points[IndexOf(from)]| == 0 {
        EmptySourceConserves(s, from, to, c);
      } else {
        OccupiedSourceConserves(s, from, to, c);
      }
    }
  }

  lemma EmptySourceConserves(s: Snapshot, from: int, to: int, c: Color)
    requires 1 <= from <= 24 && 1 <= to <= 24 && |s.points[IndexOf(from)]| == 0
    ensures PieceCount(MakeMoveEffect(s, from, to).1, c) == PieceCount(s, c)
  {
    var ti := IndexOf(to);
    var toPoint := s.points[ti];
    if |toPoint| == 1 {
      var after := MakeMoveEffect(s, from, to).1;
      assert after.points == s.points[ti := []] && after.bar == s.bar.Inc(toPoint[0]) && after.off == s.off;
      assert toPoint == [toPoint[0]];
      assert Occurrences(toPoint, c) == if toPoint[0] == c then 1 else 0;
      PointsCountUpdate(s.points, ti, [], c);
    }
  }

  lemma OccupiedSourceConserves(s: Snapshot, from: int, to: int, c: Color)
    requires 1 <= from <= 24 && 1 <= to <= 24 && |s.points[IndexOf(from)]| > 0
    ensures PieceCount(MakeMoveEffect(s, from, to).1, c) == PieceCount(s, c)
  {
    if MakeMoveEffect(s, from, to).0 {
      var fi, ti := IndexOf(from), IndexOf(to);
      var color := Top(s.points[fi]);
      var popped := s.points[fi := Pop(s.points[fi])];
      var toPoint := popped[ti];
      var after := MakeMoveEffect(s, from, to).1;
      OccurrencesPop(s.points[fi], c);
      PointsCountUpdate(s.points, fi, Pop(s.points[fi]), c);
      assert PointsCount(popped, c) + (if color == c then 1 else 0) == PointsCount(s.points, c);
      if |toPoint| == 1 && toPoint[0] != color {
        var cleared := popped[ti := Pop(toPoint)];
        assert after.points == cleared[ti := cleared[ti] + [color]];
        assert after.bar == s.bar.Inc(toPoint[0]) && after.off == s.off;
        OccurrencesPop(toPoint, c);
        PointsCountUpdate(popped, ti, Pop(toPoint), c);
        OccurrencesPush(cleared[ti], color, c);
        PointsCountUpdate(cleared, ti, cleared[ti] + [color], c);
      } else {
        assert after.points == popped[ti := toPoint + [color]];
        assert after.bar == s.bar && after.off == s.off;
        OccurrencesPush(toPoint, color, c);
        PointsCountUpdate(popped, ti, toPoint + [color], c);
      }
    }
  }

  lemma MoveFromBarConserves(s: Snapshot, to: int, color: Color, c: Color)
    requires s.bar.Of(color) > 0 ==> PointToBoardIndex(to).Some?
    ensures PieceCount(MoveFromBarEffect(s, to, color).1, c) == PieceCount(s, c)
  {
    if s.bar.Of(color) > 0 {
      var ti := PointToBoardIndex(to).value;
      var toPoint := s.points[ti];
      var after := MoveFromBarEffect(s, to, color).1;
      if |toPoint| >= 2 && toPoint[0] != color {
        assert after == s;
      } else if |toPoint| == 1 && toPoint[0] != color {
        assert toPoint == [toPoint[0]];
        assert Occurrences(toPoint, c) == if toPoint[0] == c then 1 else 0;
        assert Occurrences([color], c) == if color == c then 1 else 0;
        PointsCountUpdate(s.points, ti, [color], c);
        assert after.points == s.points[ti := [color]];
        assert after.bar == s.bar.Inc(toPoint[0]).Dec(color);
      } else {
        assert Occurrences(toPoint + [color], c) == Occurrences(toPoint, c) + (if color == c then 1 else 0);
        PointsCountUpdate(s.points, ti, toPoint + [color], c);
        assert after.points == s.points[ti := toPoint + [color]];
        assert after.bar == s.bar.Dec(color);
      }
    }
  }

  lemma BearOffConserves(s: Snapshot, from: int, color: Color, c: Color)
    requires PointToBoardIndex(from).Some?
    ensures PieceCount(BearOffEffect(s, from, color).1, c) == PieceCount(s, c)
  {
    var fi := PointToBoardIndex(from).value;
    if |s.points[fi]| > 0 && Top(s.points[fi]) == color {
      OccurrencesPop(s.points[fi], c);
      PointsCountUpdate(s.points, fi, Pop(s.points[fi]), c);
    }
  }

  /** `moveFromBar` takes exactly one checker off the mover's bar when it
      succeeds, and changes nothing when it refuses. On success a lone
      opposing checker on the target goes to its owner's bar and the mover
      stands alone there; otherwise the mover is pushed on the target. No
      other stack changes. */
  lemma MoveFromBarOutcome(s: Snapshot, to: int, color: Color)
    requires s.bar.Of(color) > 0 ==> PointToBoardIndex(to).Some?
    ensures var (ok, after) := MoveFromBarEffect(s, to, color);
            (ok <==> s.bar.Of(color) > 0 &&
                     !(|s.points[IndexOf(to)]| >= 2 && s.points[IndexOf(to)][0] != color)) &&
            (!ok ==> after == s) &&
            (ok ==> after.bar.Of(color) == s.bar.Of(color) - 1 &&
                    Top(after.points[IndexOf(to)]) == color && after.off == s.off)
    ensures var (ok, after) := MoveFromBarEffect(s, to, color);
            ok ==>
              var target := s.points[IndexOf(to)];
              (forall i :: 0 <= i < 24 && i != IndexOf(to) ==> after.points[i] == s.points[i]) &&
              (|target| == 1 && target[0] != color ==>
                 after.points[IndexOf(to)] == [color] &&
                 after.bar.Of(color.Opponent()) == s.bar.Of(color.Opponent()) + 1) &&
              (!(|target| == 1 && target[0] != color) ==>
                 after.points[IndexOf(to)] == target + [color] &&
                 after.bar.Of(color.Opponent()) == s.bar.Of(color.Opponent()))
  {
  }

  /** `bearOff` moves one checker to the off list exactly when the top
      checker at `from` is the mover's. */
  lemma BearOffOutcome(s: Snapshot, from: int, color: Color)
    requires 1 <= from <= 24
    ensures var (ok, after) := BearOffEffect(s, from, color);
            var st := s.points[IndexOf(from)];
            (ok <==> |st| > 0 && Top(st) == color) &&
            (!ok ==> after == s) &&
            (ok ==> after.off.Of(color) == s.off.Of(color) + 1 &&
                    after.off.Of(color.Opponent()) == s.off.Of(color.Opponent()) &&
                    after.points[IndexOf(from)] == Pop(st) && after.bar == s.bar &&
                    forall i :: 0 <= i < 24 && i != IndexOf(from) ==> after.points[i] == s.points[i])
  {
  }

  /** With all 15 checkers accounted for, having all 15 off is the same as
      having none left on the points or the bar: the 15th bear-off, and no
      earlier one, wins. */
  lemma {:induction false} WonIffNoneLeft(s: Snapshot, c: Color)
    requires Conserved(s)
    ensures s.off.Of(c) == CheckersPerColor <==> PointsCount(s.points, c) == 0 && s.bar.Of(c) == 0
  {
    assert PieceCount(s, c) == CheckersPerColor;
  }
}

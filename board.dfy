/** The mutable board of server/board.js: 24 point stacks held in an array
    and changed in place, plus the per-colour bar and off counts. Every
    mutating method is tied to the matching effect function of module
    Position; the read-only loops are specified outright. */
module Boards {
  import opened Position

  class Board {
    var points: array<seq<Color>>
    var bar: Tally
    var off: Tally

    ghost predicate Valid()
      reads this
    {
      points.Length == PointCount
    }

    /** `getState`: the current stacks (by board index), bars and offs. */
    function GetState(): Snapshot
      reads this, points
      requires Valid()
    {
      Snapshot(points[..], bar, off)
    }

    /** A new board has empty bars and offs and the opening layout. */
    constructor()
      ensures Valid() && fresh(points)
      ensures GetState() == InitialPosition()
    {
      points := new seq<Color>[24](_ => []);
      bar := Tally(0, 0);
      off := Tally(0, 0);
      new;
      SetupInitialPosition();
    }

    /** Replaces the stacks by a fresh array holding the opening layout;
        the bar and off counts are left as they are. */
    method SetupInitialPosition()
      modifies this
      ensures Valid() && fresh(points)
      ensures points[..] == InitialStacks()
      ensures bar == old(bar) && off == old(off)
    {
      points := new seq<Color>[24](_ => []);
      points[12] := seq(15, _ => White);
      points[0] := seq(15, _ => Black);
      assert points[..] == InitialStacks();
    }

    /** A deep copy: the same contents in a new board and a new array. */
    method Clone() returns (b: Board)
      requires Valid()
      ensures fresh(b) && fresh(b.points) && b.Valid()
      ensures b.GetState() == GetState()
    {
      b := new Board();
      b.points := new seq<Color>[24](i reads this, points requires 0 <= i < points.Length => points[i]);
      b.bar := bar;
      b.off := off;
      assert b.points[..] == points[..];
    }

    /** On an empty source the source's mover is `undefined`, which has no
        direction and is pushed as no checker; see MakeMoveEffect. */
    method MakeMove(from: int, to: int) returns (ok: bool)
      requires Valid()
      modifies this, points
      ensures Valid() && points == old(points)
      ensures (ok, GetState()) == MakeMoveEffect(old(GetState()), from, to)
    {
      ghost var s := GetState();
      var fromIndex := PointToBoardIndex(from);
      var toIndex := PointToBoardIndex(to);
      if fromIndex.None? || toIndex.None? {
        return false;
      }
      var fi, ti := fromIndex.value, toIndex.value;
      if |points[fi]| == 0 {
        if |points[ti]| == 1 {
          var hitColor := points[ti][0];
          bar := bar.Inc(hitColor);
          points[ti] := Pop(points[ti]);
        }
        return true;
      }
      var color := Top(points[fi]);
      if color == White && from < to {
        return false;
      }
      if color == Black && from > to {
        return false;
      }
      points[fi] := Pop(points[fi]);
      ghost var popped := points[..];
      assert popped == s.points[fi := Pop(s.points[fi])];
      if |points[ti]| == 1 && points[ti][0] != color {
        var hitColor := points[ti][0];
        bar := bar.Inc(hitColor);
        points[ti] := Pop(points[ti]);
      }
      points[ti] := points[ti] + [color];
      ok := true;
    }

    /** `isValidMove`: both point numbers are valid, the top checker at
        `from` is of the given colour, and `to` is not held by two or more
        checkers whose bottom one is of another colour. */
    predicate IsValidMove(from: int, to: int, color: Color)
      reads this, points
      requires Valid()
      ensures IsValidMove(from, to, color) <==>
        1 <= from <= 24 && 1 <= to <= 24 &&
        |points[IndexOf(from)]| > 0 && Top(points[IndexOf(from)]) == color &&
        !(|points[IndexOf(to)]| >= 2 && points[IndexOf(to)][0] != color)
    {
      var fromIndex := PointToBoardIndex(from);
      var toIndex := PointToBoardIndex(to);
      if fromIndex.None? || toIndex.None? then false
      else if from < 1 || from > 24 || to < 1 || to > 24 then false
      else
        var fromPoint := points[fromIndex.value];
        var toPoint := points[toIndex.value];
        if |fromPoint| == 0 || Top(fromPoint) != color then false
        else if |toPoint| >= 2 && toPoint[0] != color then false
        else true
    }

    method GetPieceCount(color: Color) returns (count: nat)
      requires Valid()
      ensures count == PieceCount(GetState(), color)
    {
      count := 0;
      for i := 0 to 24
        invariant count == PointsCount(points[..i], color)
      {
        assert points[..i + 1][..i] == points[..i];
        count := count + Occurrences(points[i], color);
      }
      assert points[..24] == points[..];
      count := count + bar.Of(color);
      count := count + off.Of(color);
    }

    /** The board code dereferences `points[null]` for an invalid `from`,
        so callers must pass a valid point number. */
    method BearOff(from: int, color: Color) returns (ok: bool)
      requires Valid() && PointToBoardIndex(from).Some?
      modifies this, points
      ensures Valid() && points == old(points)
      ensures (ok, GetState()) == BearOffEffect(old(GetState()), from, color)
    {
      var fromIndex := PointToBoardIndex(from).value;
      if |points[fromIndex]| > 0 && Top(points[fromIndex]) == color {
        points[fromIndex] := Pop(points[fromIndex]);
        off := off.Inc(color);
        return true;
      }
      return false;
    }

    /** `canBearOff`: nothing of the colour on the bar, and every point
        holding one of its checkers inside its home board. */
    method CanBearOff(color: Color) returns (r: bool)
      requires Valid()
      ensures r <==> bar.Of(color) == 0 && AllHome(GetState(), color)
    {
      if bar.Of(color) > 0 {
        return false;
      }
      var homeStart := if color == White then 1 else 19;
      var homeEnd := if color == White then 6 else 24;
      for i := 0 to 24
        invariant forall j :: 0 <= j < i && color in points[j] ==> InHome(color, PointAt(j))
      {
        if color in points[i] {
          var pointNumber := BoardIndexToPoint(i).value;
          if pointNumber < homeStart || pointNumber > homeEnd {
            assert color in GetState().points[i];
            return false;
          }
        }
      }
      return true;
    }

    /** An invalid `to` is dereferenced only when the bar is non-empty. */
    method MoveFromBar(to: int, color: Color) returns (ok: bool)
      requires Valid() && (bar.Of(color) > 0 ==> PointToBoardIndex(to).Some?)
      modifies this, points
      ensures Valid() && points == old(points)
      ensures (ok, GetState()) == MoveFromBarEffect(old(GetState()), to, color)
    {
      ghost var s := GetState();
      var toIndex := PointToBoardIndex(to);
      if bar.Of(color) > 0 {
        var ti := toIndex.value;
        if |points[ti]| >= 2 && points[ti][0] != color {
          return false;
        }
        if |points[ti]| == 1 && points[ti][0] != color {
          var hitColor := points[ti][0];
          bar := bar.Inc(hitColor);
          points[ti] := Pop(points[ti]);
          assert points[ti] + [color] == [color];
        }
        bar := bar.Dec(color);
        points[ti] := points[ti] + [color];
        assert points[..] == s.points[ti := points[ti]];
        return true;
      }
      return false;
    }

    predicate HasWon(color: Color)
      reads this
    {
      off.Of(color) == CheckersPerColor
    }
  }

  /** On a board holding all 30 checkers, `hasWon` holds exactly when none
      of the colour is left on the points or the bar. */
  lemma HasWonIffNoneLeft(b: Board, c: Color)
    requires b.Valid() && Conserved(b.GetState())
    ensures b.HasWon(c) <==> PointsCount(b.points[..], c) == 0 && b.bar.Of(c) == 0
  {
    WonIffNoneLeft(b.GetState(), c);
  }

  /** The scenario of a white blot on point 1 facing two or more black
      checkers on point 2: the board refuses the move as blocked. */
  lemma BlockedPointRefused(b: Board)
    requires b.Valid()
    requires b.points[IndexOf(1)] == [White]
    requires |b.points[IndexOf(2)]| >= 2 && b.points[IndexOf(2)][0] == Black
    ensures !b.IsValidMove(1, 2, White)
  {
  }
}

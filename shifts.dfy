/**
 * The eight directional shifts of move.go with their edge masking, and the
 * rank-and-file geometry they implement.
 */
module Shifts {
  import opened Bits

  // ---------------------------------------------------------------- geometry

  /** The eight compass directions of the shift functions. */
  datatype Dir = S | W | E | N | SW | SE | NW | NE

  function DRank(d: Dir): int
  {
    match d
    case S => -1 case SW => -1 case SE => -1
    case W => 0 case E => 0
    case N => 1 case NW => 1 case NE => 1
  }

  function DFile(d: Dir): int
  {
    match d
    case W => -1 case SW => -1 case NW => -1
    case S => 0 case N => 0
    case E => 1 case SE => 1 case NE => 1
  }

  function Reverse(d: Dir): (r: Dir)
    ensures DRank(r) == -DRank(d) && DFile(r) == -DFile(d)
  {
    match d
    case S => N case N => S case W => E case E => W
    case SW => NE case NE => SW case SE => NW case NW => SE
  }

  /**
   * The square one step from s in direction d by rank and file, or -1 when that
   * step leaves the board: the geometry the shifts are meant to implement.
   */
  function Step(d: Dir, s: int): (t: int)
    requires 0 <= s < 64
    ensures -1 <= t < 64
  {
    var r, f := s / 8 + DRank(d), s % 8 + DFile(d);
    if 0 <= r < 8 && 0 <= f < 8 then 8 * r + f else -1
  }

  /** A step and the step back in the reverse direction undo each other. */
  lemma StepReverse(d: Dir, s: int, t: int)
    requires 0 <= s < 64 && 0 <= t < 64
    ensures Step(d, s) == t <==> Step(Reverse(d), t) == s
  {
  }

  // ---------------------------------------------------------------- shifts

  /** `south`: `b >> 8`. */
  function South(b: Board): Board
  {
    Shr(b, 8)
  }

  /** `west`: `b >> 1 &^ HFile`. */
  function West(b: Board): Board
  {
    AndNot(Shr(b, 1), FileMask(7))
  }

  /** `east`: `b << 1 &^ AFile`. */
  function East(b: Board): Board
  {
    AndNot(Shl(b, 1), FileMask(0))
  }

  /** `north`: `b << 8`. */
  function North(b: Board): Board
  {
    Shl(b, 8)
  }

  /** The shift function for a direction: south, west, ..., `northeast(b) = east(north(b))`. */
  function Shift(d: Dir, b: Board): Board
  {
    match d
    case S => South(b)
    case W => West(b)
    case E => East(b)
    case N => North(b)
    case SW => West(South(b))
    case SE => East(South(b))
    case NW => West(North(b))
    case NE => East(North(b))
  }

  /**
   * A shift moves every square one step in its direction and drops the squares
   * whose step leaves the board: `west` and `east` never wrap from one edge file
   * to the other, `north` and `south` never wrap between the first and last rank.
   */
  lemma ShiftStep(d: Dir, b: Board, t: int)
    requires 0 <= t < 64
    ensures Shift(d, b)[t] <==> Step(Reverse(d), t) >= 0 && b[Step(Reverse(d), t)]
  {
    match d
    case S => OrthogonalShiftStep(S, b, t);
    case W => OrthogonalShiftStep(W, b, t);
    case E => OrthogonalShiftStep(E, b, t);
    case N => OrthogonalShiftStep(N, b, t);
    case SW => DiagonalShiftStep(S, W, b, t);
    case SE => DiagonalShiftStep(S, E, b, t);
    case NW => DiagonalShiftStep(N, W, b, t);
    case NE => DiagonalShiftStep(N, E, b, t);
  }

  lemma OrthogonalShiftStep(d: Dir, b: Board, t: int)
    requires d == S || d == W || d == E || d == N
    requires 0 <= t < 64
    ensures Shift(d, b)[t] <==> Step(Reverse(d), t) >= 0 && b[Step(Reverse(d), t)]
  {
    match d
    case S => assert Step(N, t) == if t < 56 then t + 8 else -1;
    case N => assert Step(S, t) == if t >= 8 then t - 8 else -1;
    case W =>
      assert Step(E, t) == if t % 8 < 7 then t + 1 else -1;
      assert FileMask(7)[t] == (t % 8 == 7) by { assert Has(FileMask(7), t) <==> File(t) == 7; }
    case E =>
      assert Step(W, t) == if t % 8 > 0 then t - 1 else -1;
      assert FileMask(0)[t] == (t % 8 == 0) by { assert Has(FileMask(0), t) <==> File(t) == 0; }
  }

  /** The diagonal shifts are a rank shift followed by a file shift. */
  lemma DiagonalShiftStep(v: Dir, h: Dir, b: Board, t: int)
    requires v == S || v == N
    requires h == W || h == E
    requires 0 <= t < 64
    ensures var d := Compose(v, h);
      Shift(d, b)[t] <==> Step(Reverse(d), t) >= 0 && b[Step(Reverse(d), t)]
  {
    var vb := Shift(v, b);
    assert Shift(Compose(v, h), b) == Shift(h, vb);
    OrthogonalShiftStep(h, vb, t);
    var u := Step(Reverse(h), t);
    StepCompose(v, h, t);
    if u >= 0 {
      OrthogonalShiftStep(v, b, u);
    }
  }

  /** A diagonal step is a file step followed by a rank step. */
  lemma StepCompose(v: Dir, h: Dir, t: int)
    requires v == S || v == N
    requires h == W || h == E
    requires 0 <= t < 64
    ensures var u := Step(h, t);
      Step(Compose(v, h), t) == if u >= 0 then Step(v, u) else -1
  {
  }

  /** The diagonal direction combining a rank direction and a file direction. */
  function Compose(v: Dir, h: Dir): (d: Dir)
    requires v == S || v == N
    requires h == W || h == E
    ensures DRank(d) == DRank(v) && DFile(d) == DFile(h)
  {
    if v == S then (if h == W then SW else SE) else (if h == W then NW else NE)
  }

  /** A step lands on t exactly when t's rank and file differ from s's by the direction's deltas. */
  lemma StepCoordinates(d: Dir, s: int, t: int)
    requires 0 <= s < 64 && 0 <= t < 64
    ensures Step(d, s) == t <==> t / 8 - s / 8 == DRank(d) && t % 8 - s % 8 == DFile(d)
  {
  }

  /** Shifting a single square moves it one step, or drops it at the edge. */
  lemma ShiftSquare(d: Dir, s: Square)
    requires s < 64
    ensures var t := Step(d, s);
      Shift(d, SquareBoard(s)) == if t >= 0 then SquareBoard(t) else Empty()
  {
    var t := Step(d, s);
    forall u | 0 <= u < 64
      ensures Shift(d, SquareBoard(s))[u] == (if t >= 0 then SquareBoard(t) else Empty())[u]
    {
      ShiftStep(d, SquareBoard(s), u);
      StepReverse(d, s, u);
      var v := Step(Reverse(d), u);
      if v >= 0 {
        assert SquareBoard(s)[v] <==> v == s by { assert Has(SquareBoard(s), v) <==> v == s; }
      }
      if t >= 0 {
        assert SquareBoard(t)[u] <==> u == t by { assert Has(SquareBoard(t), u) <==> u == t; }
      }
    }
  }

  /** Shifting the empty board gives the empty board. */
  lemma ShiftEmpty(d: Dir)
    ensures Shift(d, Empty()) == Empty()
  {
    forall u | 0 <= u < 64
      ensures Shift(d, Empty())[u] == Empty()[u]
    {
      ShiftStep(d, Empty(), u);
    }
  }

  /** A shifted single square holds t exactly when t lies one step from s in direction d. */
  lemma ShiftSquareAt(d: Dir, s: Square, t: int)
    requires s < 64 && 0 <= t < 64
    ensures Shift(d, SquareBoard(s))[t] <==> t / 8 - s / 8 == DRank(d) && t % 8 - s % 8 == DFile(d)
  {
    ShiftSquare(d, s);
    StepCoordinates(d, s, t);
    var u := Step(d, s);
    if u >= 0 {
      assert SquareBoard(u)[t] <==> t == u by { assert Has(SquareBoard(u), t) <==> t == u; }
    }
  }

  /** Two directions that never pull against each other along a rank or a file. */
  predicate Aligned(d1: Dir, d2: Dir)
  {
    ((DRank(d1) >= 0 && DRank(d2) >= 0) || (DRank(d1) <= 0 && DRank(d2) <= 0)) &&
    ((DFile(d1) >= 0 && DFile(d2) >= 0) || (DFile(d1) <= 0 && DFile(d2) <= 0))
  }

  /**
   * Two aligned shifts of a single square add their rank and file offsets: a
   * square lost over an edge by the first shift could not have come back.
   */
  lemma TwoShiftsAt(d1: Dir, d2: Dir, s: Square, t: int)
    requires Aligned(d1, d2)
    requires s < 64 && 0 <= t < 64
    ensures Shift(d2, Shift(d1, SquareBoard(s)))[t] <==>
      t / 8 - s / 8 == DRank(d1) + DRank(d2) && t % 8 - s % 8 == DFile(d1) + DFile(d2)
  {
    ShiftSquare(d1, s);
    var u := Step(d1, s);
    if u >= 0 {
      ShiftSquareAt(d2, u, t);
      StepCoordinates(d1, s, u);
    } else {
      ShiftEmpty(d2);
    }
  }
}

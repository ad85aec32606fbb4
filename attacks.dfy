/**
 * The attack sets of move.go: pawn advances and captures, the king and knight
 * tables built by `init`, the sliders built on `attackFill`, and `IsAttacked`.
 */
module Attacks {
  import opened Bits
  import opened Chess
  import opened Shifts
  import opened Slide

  function Abs(x: int): nat
  {
    if x < 0 then -x else x
  }

  // ---------------------------------------------------------------- reference geometry

  /** t is one of the up to eight squares adjacent to s. */
  predicate KingStep(s: int, t: int)
    requires 0 <= s < 64 && 0 <= t < 64
  {
    s != t && Abs(t / 8 - s / 8) <= 1 && Abs(t % 8 - s % 8) <= 1
  }

  /** t is a knight's jump from s: two squares one way and one square the other. */
  predicate KnightJump(s: int, t: int)
    requires 0 <= s < 64 && 0 <= t < 64
  {
    var dr, df := Abs(t / 8 - s / 8), Abs(t % 8 - s % 8);
    (dr == 1 && df == 2) || (dr == 2 && df == 1)
  }

  /** A pawn of colour c on s captures on t: one rank forward and one file aside. */
  predicate PawnCapture(c: Color, s: int, t: int)
    requires 0 <= s < 64 && 0 <= t < 64
  {
    t / 8 - s / 8 == (if c == White then 1 else -1) && Abs(t % 8 - s % 8) == 1
  }

  /** King steps and knight jumps lead back to where they started. */
  lemma LeapsSymmetric(s: int, t: int)
    requires 0 <= s < 64 && 0 <= t < 64
    ensures KingStep(s, t) <==> KingStep(t, s)
    ensures KnightJump(s, t) <==> KnightJump(t, s)
  {
    var dr, df := t / 8 - s / 8, t % 8 - s % 8;
    assert s / 8 - t / 8 == -dr && s % 8 - t % 8 == -df;
    assert Abs(-dr) == Abs(dr) && Abs(-df) == Abs(df);
  }

  // ---------------------------------------------------------------- pawns

  /**
   * `whitePawnAdvances`: one step north onto an empty square, and a second step
   * through an empty square onto an empty square of the lower half of the board
   * (the `<<32>>32`): rank 4 from the pawns' home rank, rank 3 from rank 1.
   */
  function WhitePawnAdvances(p: Board, empty: Board): (r: Board)
    ensures forall t :: 0 <= t < 64 ==>
      (r[t] <==> (8 <= t && p[t - 8] && empty[t]) || (16 <= t < 32 && p[t - 16] && empty[t - 8] && empty[t]))
  {
    Or(Shr(Shl(And(North(And(North(p), empty)), empty), 32), 32), And(North(p), empty))
  }

  /** `blackPawnAdvances`: the mirror image, the double step landing in the upper half. */
  function BlackPawnAdvances(p: Board, empty: Board): (r: Board)
    ensures forall t :: 0 <= t < 64 ==>
      (r[t] <==> (t < 56 && p[t + 8] && empty[t]) || (32 <= t < 48 && p[t + 16] && empty[t + 8] && empty[t]))
  {
    Or(Shl(Shr(And(South(And(South(p), empty)), empty), 32), 32), And(South(p), empty))
  }

  /** `whitePawnAttacks` / `blackPawnAttacks`; occupancy plays no part. */
  function PawnAttacks(c: Color, p: Board): Board
  {
    if c == White then Or(Shift(NW, p), Shift(NE, p)) else Or(Shift(SW, p), Shift(SE, p))
  }

  /** A pawn standing alone on s attacks exactly its two forward diagonal neighbours. */
  lemma PawnAttacksSquare(c: Color, s: Square, t: int)
    requires s < 64 && 0 <= t < 64
    ensures PawnAttacks(c, SquareBoard(s))[t] <==> PawnCapture(c, s, t)
  {
    if c == White {
      ShiftSquareAt(NW, s, t);
      ShiftSquareAt(NE, s, t);
    } else {
      ShiftSquareAt(SW, s, t);
      ShiftSquareAt(SE, s, t);
    }
  }

  // ---------------------------------------------------------------- leaper tables

  /** The entry `init` stores in `kAttacks[s]`. */
  function KingTableEntry(s: Square): Board
  {
    var b := SquareBoard(s);
    Or(Or(Or(Or(Or(Or(Or(Shift(SW, b), Shift(S, b)), Shift(SE, b)), Shift(W, b)), Shift(E, b)),
      Shift(NW, b)), Shift(N, b)), Shift(NE, b))
  }

  /** The entry `init` stores in `nAttacks[s]`. */
  function KnightTableEntry(s: Square): Board
  {
    var b := SquareBoard(s);
    Or(Or(Or(Or(Or(Or(Or(Shift(SW, Shift(S, b)), Shift(SE, Shift(S, b))), Shift(SW, Shift(W, b))),
      Shift(SE, Shift(E, b))), Shift(NW, Shift(W, b))), Shift(NE, Shift(E, b))),
      Shift(NW, Shift(N, b))), Shift(NE, Shift(N, b)))
  }

  /** `kAttacks[s]` holds exactly the squares adjacent to s, with no wrap across the board's edges. */
  lemma KingTableGeometry(s: Square, t: int)
    requires s < 64 && 0 <= t < 64
    ensures KingTableEntry(s)[t] <==> KingStep(s, t)
  {
    ShiftSquareAt(SW, s, t);
    ShiftSquareAt(S, s, t);
    ShiftSquareAt(SE, s, t);
    ShiftSquareAt(W, s, t);
    ShiftSquareAt(E, s, t);
    ShiftSquareAt(NW, s, t);
    ShiftSquareAt(N, s, t);
    ShiftSquareAt(NE, s, t);
  }

  /** `nAttacks[s]` holds exactly the knight jumps from s, with no wrap across the board's edges. */
  lemma KnightTableGeometry(s: Square, t: int)
    requires s < 64 && 0 <= t < 64
    ensures KnightTableEntry(s)[t] <==> KnightJump(s, t)
  {
    TwoShiftsAt(S, SW, s, t);
    TwoShiftsAt(S, SE, s, t);
    TwoShiftsAt(W, SW, s, t);
    TwoShiftsAt(E, SE, s, t);
    TwoShiftsAt(W, NW, s, t);
    TwoShiftsAt(E, NE, s, t);
    TwoShiftsAt(N, NW, s, t);
    TwoShiftsAt(N, NE, s, t);
  }

  /** `init`: fills the two 64-entry tables square by square. */
  method InitTables() returns (kAttacks: array<Board>, nAttacks: array<Board>)
    ensures fresh(kAttacks) && fresh(nAttacks)
    ensures kAttacks.Length == 64 && nAttacks.Length == 64
    ensures forall s :: 0 <= s < 64 ==> kAttacks[s] == KingTableEntry(s)
    ensures forall s :: 0 <= s < 64 ==> nAttacks[s] == KnightTableEntry(s)
  {
    kAttacks := new Board[64](_ => Empty());
    nAttacks := new Board[64](_ => Empty());
    var s := 0;
    while s < 64
      invariant 0 <= s <= 64
      invariant kAttacks != nAttacks
      invariant forall i :: 0 <= i < s ==> kAttacks[i] == KingTableEntry(i)
      invariant forall i :: 0 <= i < s ==> nAttacks[i] == KnightTableEntry(i)
    {
      SetEntry(kAttacks, s, KingTableEntry(s));
      SetEntry(nAttacks, s, KnightTableEntry(s));
      s := s + 1;
    }
  }

  /** `table[s] = v`, stated entry by entry. */
  method SetEntry(table: array<Board>, s: int, v: Board)
    requires 0 <= s < table.Length
    modifies table
    ensures table[s] == v
    ensures forall i :: 0 <= i < table.Length && i != s ==> table[i] == old(table[i])
  {
    table[s] := v;
  }

  /** `kingAttacks`: the table entry of p's lowest square; Go indexes past the table when p is empty. */
  function KingAttacks(p: Board): Board
    requires NonZero(p)
  {
    NonZeroEmpty(p);
    LS1BIndexEmpty(p);
    KingTableEntry(LS1BIndex(p))
  }

  /** `knightAttacks`: the table entry of p's lowest square; Go indexes past the table when p is empty. */
  function KnightAttacks(p: Board): Board
    requires NonZero(p)
  {
    NonZeroEmpty(p);
    LS1BIndexEmpty(p);
    KnightTableEntry(LS1BIndex(p))
  }

  /** `kingAttacks` and `knightAttacks` of a single square read that square's table entries. */
  lemma LeapersOfSquare(s: Square)
    requires s < 64
    ensures NonZero(SquareBoard(s))
    ensures KingAttacks(SquareBoard(s)) == KingTableEntry(s)
    ensures KnightAttacks(SquareBoard(s)) == KnightTableEntry(s)
  {
    assert SquareBoard(s)[s] by { assert Has(SquareBoard(s), s); }
    LS1BIndexSquareBoard(s);
  }

  // ---------------------------------------------------------------- sliders

  /** `bishopAttacks`: the union of the four diagonal `attackFill`s. */
  function BishopAttacks(p: Board, empty: Board): Board
  {
    Or(Or(Or(FillOf(SW, p, empty), FillOf(SE, p, empty)), FillOf(NW, p, empty)), FillOf(NE, p, empty))
  }

  /** `rookAttacks`: the union of the four orthogonal `attackFill`s. */
  function RookAttacks(p: Board, empty: Board): Board
  {
    Or(Or(Or(FillOf(S, p, empty), FillOf(W, p, empty)), FillOf(E, p, empty)), FillOf(N, p, empty))
  }

  /** `queenAttacks`: rook and bishop attacks together. */
  function QueenAttacks(p: Board, empty: Board): Board
  {
    Or(RookAttacks(p, empty), BishopAttacks(p, empty))
  }

  /** t lies on one of the four diagonal rays from s that stop at the first occupied square. */
  ghost predicate BishopRays(s: Square, empty: Board, t: int)
    requires s < 64 && 0 <= t < 64
  {
    Ray(SW, s, empty)[t] || Ray(SE, s, empty)[t] || Ray(NW, s, empty)[t] || Ray(NE, s, empty)[t]
  }

  /** t lies on one of the four orthogonal rays from s that stop at the first occupied square. */
  ghost predicate RookRays(s: Square, empty: Board, t: int)
    requires s < 64 && 0 <= t < 64
  {
    Ray(S, s, empty)[t] || Ray(W, s, empty)[t] || Ray(E, s, empty)[t] || Ray(N, s, empty)[t]
  }

  /** A bishop alone on s attacks exactly the squares of its four diagonal rays. */
  lemma BishopAttacksSquare(s: Square, empty: Board, t: int)
    requires s < 64 && 0 <= t < 64
    ensures BishopAttacks(SquareBoard(s), empty)[t] <==> BishopRays(s, empty, t)
  {
    FillRay(SW, s, empty);
    FillRay(SE, s, empty);
    FillRay(NW, s, empty);
    FillRay(NE, s, empty);
  }

  /** A rook alone on s attacks exactly the squares of its four orthogonal rays. */
  lemma RookAttacksSquare(s: Square, empty: Board, t: int)
    requires s < 64 && 0 <= t < 64
    ensures RookAttacks(SquareBoard(s), empty)[t] <==> RookRays(s, empty, t)
  {
    FillRay(S, s, empty);
    FillRay(W, s, empty);
    FillRay(E, s, empty);
    FillRay(N, s, empty);
  }

  /** A bishop on s attacks t exactly when a bishop on t would attack s. */
  lemma BishopRaysSymmetric(s: Square, t: Square, empty: Board)
    requires s < 64 && t < 64
    ensures BishopRays(s, empty, t) <==> BishopRays(t, empty, s)
  {
    RaySymmetric(SW, s, t, empty);
    RaySymmetric(SE, s, t, empty);
    RaySymmetric(NW, s, t, empty);
    RaySymmetric(NE, s, t, empty);
  }

  /** A rook on s attacks t exactly when a rook on t would attack s. */
  lemma RookRaysSymmetric(s: Square, t: Square, empty: Board)
    requires s < 64 && t < 64
    ensures RookRays(s, empty, t) <==> RookRays(t, empty, s)
  {
    RaySymmetric(S, s, t, empty);
    RaySymmetric(W, s, t, empty);
    RaySymmetric(E, s, t, empty);
    RaySymmetric(N, s, t, empty);
  }

  // ---------------------------------------------------------------- IsAttacked

  /** `^pos.b[White][All] & ^pos.b[Black][All]`: the squares no piece stands on. */
  function EmptySquares(pos: Position): (e: Board)
    ensures forall i :: 0 <= i < 64 ==> (e[i] <==> !pos.Pieces(White, All)[i] && !pos.Pieces(Black, All)[i])
  {
    And(Not(pos.Pieces(White, All)), Not(pos.Pieces(Black, All)))
  }

  /**
   * `IsAttacked`: looks from s outwards with each kind of attack, pawns of the
   * other colour for c's pawns, and tests it against c's pieces of that kind.
   * Go indexes the leaper tables past their end for a square off the board.
   */
  function IsAttacked(pos: Position, s: Square, c: Color): bool
    requires s < 64
  {
    var b := SquareBoard(s);
    var empty := EmptySquares(pos);
    LeapersOfSquare(s);
    NonZero(And(PawnAttacks(c.Opp(), b), pos.Pieces(c, Pawn))) ||
    NonZero(And(RookAttacks(b, empty), Or(pos.Pieces(c, Rook), pos.Pieces(c, Queen)))) ||
    NonZero(And(BishopAttacks(b, empty), Or(pos.Pieces(c, Bishop), pos.Pieces(c, Queen)))) ||
    NonZero(And(KnightAttacks(b), pos.Pieces(c, Knight))) ||
    NonZero(And(KingAttacks(b), pos.Pieces(c, King)))
  }

  /**
   * The squares a piece of colour c and kind p standing on `from` attacks,
   * with the occupied squares those of `empty`'s complement.
   */
  ghost predicate Reaches(c: Color, p: Piece, from: Square, s: int, empty: Board)
    requires from < 64 && 0 <= s < 64
  {
    match p
    case Pawn => PawnCapture(c, from, s)
    case Knight => KnightJump(from, s)
    case Bishop => BishopRays(from, empty, s)
    case Rook => RookRays(from, empty, s)
    case Queen => RookRays(from, empty, s) || BishopRays(from, empty, s)
    case King => KingStep(from, s)
    case _ => false
  }

  /** Some piece of colour c attacks s, own-occupied s included. */
  ghost predicate AttackedBy(pos: Position, s: Square, c: Color)
    requires s < 64
  {
    exists from: Square, p: Piece :: from < 64 && p.IsReal() && pos.Pieces(c, p)[from] &&
      Reaches(c, p, from, s, EmptySquares(pos))
  }

  /** Looking outwards from s for pawns finds exactly the pawns that capture towards s. */
  lemma PawnLooksOutwards(pos: Position, s: Square, c: Color, from: Square)
    requires s < 64 && from < 64
    ensures PawnAttacks(c.Opp(), SquareBoard(s))[from] <==> Reaches(c, Pawn, from, s, EmptySquares(pos))
  {
    PawnAttacksSquare(c.Opp(), s, from);
  }

  /** Looking outwards from s for leapers finds exactly the knights and kings that reach s. */
  lemma LeapersLookOutwards(pos: Position, s: Square, c: Color, from: Square)
    requires s < 64 && from < 64
    ensures KnightTableEntry(s)[from] <==> Reaches(c, Knight, from, s, EmptySquares(pos))
    ensures KingTableEntry(s)[from] <==> Reaches(c, King, from, s, EmptySquares(pos))
  {
    KnightTableGeometry(s, from);
    KingTableGeometry(s, from);
    LeapsSymmetric(s, from);
  }

  /** Looking outwards from s along the rays finds exactly the sliders whose rays reach s. */
  lemma SlidersLookOutwards(pos: Position, s: Square, c: Color, from: Square)
    requires s < 64 && from < 64
    ensures BishopAttacks(SquareBoard(s), EmptySquares(pos))[from] <==> Reaches(c, Bishop, from, s, EmptySquares(pos))
    ensures RookAttacks(SquareBoard(s), EmptySquares(pos))[from] <==> Reaches(c, Rook, from, s, EmptySquares(pos))
  {
    var e := EmptySquares(pos);
    BishopAttacksSquare(s, e, from);
    BishopRaysSymmetric(s, from, e);
    RookAttacksSquare(s, e, from);
    RookRaysSymmetric(s, from, e);
  }

  /** An attacked square has an attacker: the piece found by the first test that succeeds. */
  lemma AttackerOf(pos: Position, s: Square, c: Color) returns (from: Square, p: Piece)
    requires s < 64 && IsAttacked(pos, s, c)
    ensures from < 64 && p.IsReal() && pos.Pieces(c, p)[from]
    ensures Reaches(c, p, from, s, EmptySquares(pos))
  {
    var b, e := SquareBoard(s), EmptySquares(pos);
    LeapersOfSquare(s);
    if NonZero(And(PawnAttacks(c.Opp(), b), pos.Pieces(c, Pawn))) {
      var i :| 0 <= i < 64 && And(PawnAttacks(c.Opp(), b), pos.Pieces(c, Pawn))[i];
      from, p := i, Pawn;
    } else if NonZero(And(RookAttacks(b, e), Or(pos.Pieces(c, Rook), pos.Pieces(c, Queen)))) {
      var i :| 0 <= i < 64 && And(RookAttacks(b, e), Or(pos.Pieces(c, Rook), pos.Pieces(c, Queen)))[i];
      from, p := i, if pos.Pieces(c, Rook)[i] then Rook else Queen;
    } else if NonZero(And(BishopAttacks(b, e), Or(pos.Pieces(c, Bishop), pos.Pieces(c, Queen)))) {
      var i :| 0 <= i < 64 && And(BishopAttacks(b, e), Or(pos.Pieces(c, Bishop), pos.Pieces(c, Queen)))[i];
      from, p := i, if pos.Pieces(c, Bishop)[i] then Bishop else Queen;
    } else if NonZero(And(KnightAttacks(b), pos.Pieces(c, Knight))) {
      var i :| 0 <= i < 64 && And(KnightAttacks(b), pos.Pieces(c, Knight))[i];
      from, p := i, Knight;
    } else {
      var i :| 0 <= i < 64 && And(KingAttacks(b), pos.Pieces(c, King))[i];
      from, p := i, King;
    }
    PawnLooksOutwards(pos, s, c, from);
    LeapersLookOutwards(pos, s, c, from);
    SlidersLookOutwards(pos, s, c, from);
  }

  /** An attacker is found by the test for its kind. */
  lemma AttackerFound(pos: Position, s: Square, c: Color, from: Square, p: Piece)
    requires s < 64 && from < 64 && p.IsReal() && pos.Pieces(c, p)[from]
    requires Reaches(c, p, from, s, EmptySquares(pos))
    ensures IsAttacked(pos, s, c)
  {
    var b, e := SquareBoard(s), EmptySquares(pos);
    LeapersOfSquare(s);
    match p
    case Pawn =>
      PawnLooksOutwards(pos, s, c, from);
      assert And(PawnAttacks(c.Opp(), b), pos.Pieces(c, Pawn))[from];
    case Knight =>
      LeapersLookOutwards(pos, s, c, from);
      assert And(KnightAttacks(b), pos.Pieces(c, Knight))[from];
    case Bishop =>
      SlidersLookOutwards(pos, s, c, from);
      assert And(BishopAttacks(b, e), Or(pos.Pieces(c, Bishop), pos.Pieces(c, Queen)))[from];
    case Rook =>
      SlidersLookOutwards(pos, s, c, from);
      assert And(RookAttacks(b, e), Or(pos.Pieces(c, Rook), pos.Pieces(c, Queen)))[from];
    case Queen =>
      SlidersLookOutwards(pos, s, c, from);
      if RookRays(from, e, s) {
        assert And(RookAttacks(b, e), Or(pos.Pieces(c, Rook), pos.Pieces(c, Queen)))[from];
      } else {
        assert And(BishopAttacks(b, e), Or(pos.Pieces(c, Bishop), pos.Pieces(c, Queen)))[from];
      }
    case King =>
      LeapersLookOutwards(pos, s, c, from);
      assert And(KingAttacks(b), pos.Pieces(c, King))[from];
  }

  /**
   * `IsAttacked(pos, s, c)` holds exactly when some piece of colour c attacks s
   * along its own moves, sliders stopping at the first occupied square.
   */
  lemma IsAttackedIff(pos: Position, s: Square, c: Color)
    requires s < 64
    ensures IsAttacked(pos, s, c) <==> AttackedBy(pos, s, c)
  {
    if IsAttacked(pos, s, c) {
      var from, p := AttackerOf(pos, s, c);
    }
    if AttackedBy(pos, s, c) {
      var from: Square, p: Piece :| from < 64 && p.IsReal() && pos.Pieces(c, p)[from] &&
        Reaches(c, p, from, s, EmptySquares(pos));
      AttackerFound(pos, s, c, from, p);
    }
  }

  // ---------------------------------------------------------------- en passant

  /** `s ^ 8`: the square one rank towards the centre from an en passant target. */
  function FlipRank(s: Square): (t: Square)
    ensures t % 8 == s % 8
    ensures s < 64 ==> t < 64
    ensures (s / 8) % 2 == 0 ==> t == s + 8
    ensures (s / 8) % 2 == 1 ==> t == s - 8
  {
    if (s / 8) % 2 == 0 then s + 8 else s - 8
  }

  /** The board.go promise about `ep`: 0, or a square of rank 3 with Black to move or of rank 6 with White to move. */
  predicate EPValid(pos: Position)
  {
    pos.ep == 0 || (pos.toMove == Black && 16 <= pos.ep < 24) || (pos.toMove == White && 40 <= pos.ep < 48)
  }

  /** `PieceOn` does not panic on the squares beside the pawn that has just advanced two squares. */
  predicate EPDefined(pos: Position)
  {
    pos.ep != 0 ==>
      (pos.ep % 8 != 0 ==> PieceOnDefined(pos, FlipRank(pos.ep) - 1)) &&
      (pos.ep % 8 != 7 ==> PieceOnDefined(pos, FlipRank(pos.ep) + 1))
  }

  /**
   * `eligibleEPCapturers`: the squares of the mover's pawns beside the pawn that
   * has just advanced two squares, west first; 0 marks a missing capturer.
   */
  function EligibleEPCapturers(pos: Position): (r: (Square, Square))
    requires EPDefined(pos)
    ensures pos.ep == 0 ==> r == (0, 0)
    ensures r.0 == 0 ==> r.1 == 0
  {
    if pos.ep == 0 then (0, 0)
    else
      var west := if pos.ep % 8 != 0 && PieceOn(pos, FlipRank(pos.ep) - 1) == (pos.toMove, Pawn)
        then FlipRank(pos.ep) - 1 else 0;
      if pos.ep % 8 != 7 && PieceOn(pos, FlipRank(pos.ep) + 1) == (pos.toMove, Pawn) then
        if west != 0 then (west, FlipRank(pos.ep) + 1) else (FlipRank(pos.ep) + 1, 0)
      else (west, 0)
  }

  /** A consistent position never makes `eligibleEPCapturers` panic. */
  lemma ConsistentEPDefined(pos: Position)
    requires Consistent(pos)
    ensures EPDefined(pos)
  {
    if pos.ep != 0 {
      if pos.ep % 8 != 0 {
        ConsistentDefined(pos, FlipRank(pos.ep) - 1);
      }
      if pos.ep % 8 != 7 {
        ConsistentDefined(pos, FlipRank(pos.ep) + 1);
      }
    }
  }

  /**
   * In a valid position with a valid en passant target, the reported squares are
   * exactly the mover's pawns that capture onto the target, the western one first.
   */
  lemma EligibleEPCapturersIff(pos: Position, s: Square)
    requires Valid(pos) && EPValid(pos) && pos.ep != 0 && s < 64
    ensures EPDefined(pos)
    ensures var r := EligibleEPCapturers(pos);
      (s != 0 && (s == r.0 || s == r.1)) <==> pos.Pieces(pos.toMove, Pawn)[s] && PawnCapture(pos.toMove, s, pos.ep)
    ensures var r := EligibleEPCapturers(pos); r.1 != 0 ==> r.0 < r.1
  {
    ValidConsistent(pos);
    ConsistentEPDefined(pos);
    var c := FlipRank(pos.ep);
    EPCaptureSquares(pos, s);
    if pos.ep % 8 != 0 {
      PawnOnIff(pos, c - 1);
    }
    if pos.ep % 8 != 7 {
      PawnOnIff(pos, c + 1);
    }
  }

  /** The squares from which the mover's pawns capture onto a valid en passant target. */
  lemma EPCaptureSquares(pos: Position, s: Square)
    requires EPValid(pos) && pos.ep != 0 && s < 64
    ensures var c := FlipRank(pos.ep);
      PawnCapture(pos.toMove, s, pos.ep) <==> (pos.ep % 8 != 0 && s == c - 1) || (pos.ep % 8 != 7 && s == c + 1)
  {
  }

  /** In a valid position `PieceOn` reports a pawn of the mover exactly where the mover's pawn board has one. */
  lemma PawnOnIff(pos: Position, s: Square)
    requires Valid(pos) && s < 64
    ensures PieceOnDefined(pos, s)
    ensures PieceOn(pos, s) == (pos.toMove, Pawn) <==> pos.Pieces(pos.toMove, Pawn)[s]
  {
    ValidConsistent(pos);
    ConsistentDefined(pos, s);
    if pos.Pieces(pos.toMove, Pawn)[s] {
      PieceOnValid(pos, pos.toMove, Pawn, s);
    }
  }
}

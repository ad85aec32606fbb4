/**
 * `KingMoves` and `canCastle` of move.go: the king's steps from `pMoves`,
 * then castling to the queen's side and to the king's side when the right is
 * held, the squares between king and rook are empty and no square the king
 * stands on or crosses is attacked.
 */
module Castling {
  import opened Bits
  import opened Chess
  import opened Attacks
  import opened Moves
  import opened MoveGen

  /** The squares between the mover's king and its rook on `side` are empty. */
  predicate PathClear(pos: Position, side: Side)
  {
    forall s :: s in CastleEmptyList(pos.toMove, side) ==> Has(EmptySquares(pos), s)
  }

  /** The opponent attacks none of the squares the mover's king starts on, crosses or lands on. */
  predicate PathSafe(pos: Position, side: Side)
  {
    forall s :: s in CastleKingList(pos.toMove, side) ==> s < 64 && !IsAttacked(pos, s, pos.Opp())
  }

  /**
   * When `canCastle(pos, side)` holds: the mover keeps the right, and the path
   * between king and rook is empty and safe.
   */
  predicate CastleAllowed(pos: Position, side: Side)
  {
    pos.Castle(pos.toMove, side) && PathClear(pos, side) && PathSafe(pos, side)
  }

  /**
   * `canCastle`: gives up at the first missing condition; the `rangeBits` over
   * the king's squares stops testing once one of them is attacked.
   */
  method CanCastle(pos: Position, side: Side) returns (ok: bool)
    ensures ok == CastleAllowed(pos, side)
  {
    var c := pos.toMove;
    if !pos.Castle(c, side) {
      return false;
    }
    var empty := EmptySquares(pos);
    PathClearIff(pos, side);
    if NonZero(AndNot(CastleEmptySquares(c, side), empty)) {
      return false;
    }
    var squares := RangeBits(CastleKingSquares(c, side));
    var attacked := AnyAttacked(pos, squares);
    PathSafeIff(pos, side);
    ok := !attacked;
  }

  /** Whether the opponent attacks one of `squares`. */
  function AttackedAmong(pos: Position, squares: seq<Square>): bool
    requires forall j :: 0 <= j < |squares| ==> squares[j] < 64
  {
    squares != [] &&
    (AttackedAmong(pos, squares[..|squares| - 1]) || IsAttacked(pos, squares[|squares| - 1], pos.Opp()))
  }

  /** The `rangeBits` of `canCastle` over the king's squares, which stops testing after the first attacked one. */
  method AnyAttacked(pos: Position, squares: seq<Square>) returns (attacked: bool)
    requires forall j :: 0 <= j < |squares| ==> squares[j] < 64
    ensures attacked == AttackedAmong(pos, squares)
  {
    attacked := false;
    for i := 0 to |squares|
      invariant attacked == AttackedAmong(pos, squares[..i])
    {
      assert squares[..i + 1][..i] == squares[..i];
      if attacked {
        continue;
      }
      attacked := IsAttacked(pos, squares[i], pos.Opp());
    }
    assert squares[..|squares|] == squares;
  }

  /** `AttackedAmong` holds exactly when some square of the list is attacked. */
  lemma {:induction false} AttackedAmongIff(pos: Position, squares: seq<Square>)
    requires forall j :: 0 <= j < |squares| ==> squares[j] < 64
    ensures AttackedAmong(pos, squares) <==> exists s :: s in squares && s < 64 && IsAttacked(pos, s, pos.Opp())
  {
    if squares != [] {
      var pre, last := squares[..|squares| - 1], squares[|squares| - 1];
      AttackedAmongIff(pos, pre);
      forall s ensures s in squares <==> s in pre || s == last {
        InLast(squares, s);
      }
    }
  }

  /** `CastleEmptySquares[c][side] &^ empty != 0` says exactly that the path is not clear. */
  lemma PathClearIff(pos: Position, side: Side)
    ensures NonZero(AndNot(CastleEmptySquares(pos.toMove, side), EmptySquares(pos))) <==> !PathClear(pos, side)
  {
    var c, empty := pos.toMove, EmptySquares(pos);
    var blocked := AndNot(CastleEmptySquares(c, side), empty);
    if NonZero(blocked) {
      var i :| 0 <= i < 64 && blocked[i];
      assert Has(CastleEmptySquares(c, side), i);
    } else {
      forall s | s in CastleEmptyList(c, side)
        ensures Has(empty, s)
      {
        assert Has(CastleEmptySquares(c, side), s);
        assert !blocked[s];
      }
    }
  }

  /** The squares `rangeBits` visits are the king's squares, so one of them is attacked exactly when the path is unsafe. */
  lemma PathSafeIff(pos: Position, side: Side)
    ensures forall j :: 0 <= j < |BitsOf(CastleKingSquares(pos.toMove, side))| ==> BitsOf(CastleKingSquares(pos.toMove, side))[j] < 64
    ensures AttackedAmong(pos, BitsOf(CastleKingSquares(pos.toMove, side))) <==> !PathSafe(pos, side)
  {
    var c := pos.toMove;
    var squares := BitsOf(CastleKingSquares(c, side));
    AttackedAmongIff(pos, squares);
    forall s: Square
      ensures s in squares <==> s in CastleKingList(c, side)
    {
      assert Has(CastleKingSquares(c, side), s) <==> s in CastleKingList(c, side);
    }
  }

  /** Byte arithmetic on squares: `from - 2` and `from + 2` wrap around modulo 256. */
  function Wrap(x: int): (s: Square)
    requires -2 <= x < 258
    ensures s % 256 == x % 256
  {
    if x < 0 then x + 256 else if x >= 256 then x - 256 else x
  }

  /** The castling move from the king's square: two squares west or east, in byte arithmetic. */
  function CastleMove(pos: Position, side: Side): Move
  {
    var from := pos.King(pos.toMove);
    Move(from, if side == QS then Wrap(from as int - 2) else Wrap(from as int + 2), King, None, false, None)
  }

  /** What `KingMoves(pos)` returns: the king's steps, then castling to the queen's side, then to the king's side. */
  function KingMoveList(pos: Position): seq<Move>
    requires Consistent(pos)
  {
    PieceMoveList(pos, King) +
    (if CastleAllowed(pos, QS) then [CastleMove(pos, QS)] else []) +
    (if CastleAllowed(pos, KS) then [CastleMove(pos, KS)] else [])
  }

  /** `KingMoves`: `pMoves(pos, King)` and the castlings `canCastle` allows. */
  method KingMoves(pos: Position) returns (moves: seq<Move>)
    requires Consistent(pos)
    ensures moves == KingMoveList(pos)
  {
    moves := PieceMoves(pos, King);
    var qs := CanCastle(pos, QS);
    if qs {
      moves := moves + [CastleMove(pos, QS)];
    }
    var ks := CanCastle(pos, KS);
    if ks {
      moves := moves + [CastleMove(pos, KS)];
    }
  }

  /** `Make` reads a castling move of `KingMoves` as castling to its side when the king stands on the board. */
  lemma CastleMoveIsCastle(pos: Position, side: Side)
    requires pos.King(pos.toMove) < 64
    ensures CastleMove(pos, side).IsCastle() == (side, true)
  {
  }

  /** A king step is never two squares along a rank, so `Make` never reads one as castling. */
  lemma KingStepNotCastle(m: Move)
    requires m.from < 64 && m.to < 64 && KingStep(m.from, m.to)
    ensures !m.IsCastle().1
  {
  }

  /**
   * `KingMoves(pos)` holds the king moves `pMoves` makes and the two castlings,
   * each exactly when `canCastle` allows it; none of the king's steps is a
   * castling.
   */
  lemma KingMoveListIff(pos: Position, m: Move)
    requires Consistent(pos)
    ensures m in KingMoveList(pos) <==>
      m in PieceMoveList(pos, King) || (exists side :: CastleAllowed(pos, side) && m == CastleMove(pos, side))
    ensures m in PieceMoveList(pos, King) ==> !m.IsCastle().1
  {
    var steps := PieceMoveList(pos, King);
    var qs := if CastleAllowed(pos, QS) then [CastleMove(pos, QS)] else [];
    var ks := if CastleAllowed(pos, KS) then [CastleMove(pos, KS)] else [];
    InConcat(steps, qs, m);
    InConcat(steps + qs, ks, m);
    if exists side :: CastleAllowed(pos, side) && m == CastleMove(pos, side) {
      var side :| CastleAllowed(pos, side) && m == CastleMove(pos, side);
      assert side == QS || side == KS;
    }
    PieceMoveListIff(pos, King, m);
    if m in steps {
      KingStepNotCastle(m);
    }
  }
}

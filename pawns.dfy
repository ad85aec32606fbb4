/**
 * `PawnMoves` of move.go: single and double advances, captures, the four
 * promotions on the last rank and the en passant captures, each walk a
 * `rangeBits` loop proved equal to a list function, and lemmas saying which
 * moves that list holds.
 */
module PawnGen {
  import opened Bits
  import opened Chess
  import opened Shifts
  import opened Attacks
  import opened Moves
  import opened MoveGen

  /** The rank a pawn of colour c promotes on: 7 for White, 0 for Black. */
  function PromoteRank(c: Color): Square
  {
    if c == White then 7 else 0
  }

  /** The pieces a pawn promotes to, in the order `PawnMoves` appends them. */
  const Promotions: seq<Piece> := [Queen, Rook, Bishop, Knight]

  /** `pawnAdv(f, empty)` for the mover's pawn alone on `from`. */
  function Advances(pos: Position, from: Square): Board
  {
    var f, empty := SquareBoard(from), EmptySquares(pos);
    if pos.toMove == White then WhitePawnAdvances(f, empty) else BlackPawnAdvances(f, empty)
  }

  /** `pawnAtk(f, empty) & pos.b[pos.Opp()][All]` for the mover's pawn alone on `from`. */
  function Captures(pos: Position, from: Square): Board
  {
    And(PawnAttacks(pos.toMove, SquareBoard(from)), pos.Pieces(pos.Opp(), All))
  }

  /**
   * The moves a pawn of colour c makes from `from` onto `to`, capturing cp:
   * one for each promotion piece when `to` is on the promotion rank, else one.
   */
  function PawnMovesOnto(c: Color, from: Square, to: Square, cp: Piece): seq<Move>
  {
    var m := Move(from, to, Pawn, cp, false, None);
    if Rank(to) == PromoteRank(c) then seq(|Promotions|, i requires 0 <= i < |Promotions| => m.(promotePiece := Promotions[i]))
    else [m]
  }

  /** The moves of the pawn on `from` onto each square of `tos`, capturing what stands there when `capture`. */
  function PawnMovesTo(pos: Position, from: Square, tos: seq<Square>, capture: bool): seq<Move>
    requires Consistent(pos)
  {
    if tos == [] then []
    else
      var to := tos[|tos| - 1];
      PawnMovesTo(pos, from, tos[..|tos| - 1], capture) +
      PawnMovesOnto(pos.toMove, from, to, if capture then CaptureOn(pos, to) else None)
  }

  /** The advances and then the captures of the mover's pawns on `froms`, square by square. */
  function PawnMovesFrom(pos: Position, froms: seq<Square>): seq<Move>
    requires Consistent(pos)
  {
    if froms == [] then []
    else
      var from := froms[|froms| - 1];
      PawnMovesFrom(pos, froms[..|froms| - 1]) +
      PawnMovesTo(pos, from, BitsOf(Advances(pos, from)), false) +
      PawnMovesTo(pos, from, BitsOf(Captures(pos, from)), true)
  }

  /** The mover's pawns beside the pawn that has just advanced two squares, `ep ^ 8`. */
  function EPSources(pos: Position): Board
  {
    var victim := SquareBoard(FlipRank(pos.ep));
    And(Or(West(victim), East(victim)), pos.Pieces(pos.toMove, Pawn))
  }

  /** The en passant captures onto `ep` from each square of `srcs`. */
  function EPMoves(pos: Position, srcs: seq<Square>): seq<Move>
  {
    if srcs == [] then []
    else EPMoves(pos, srcs[..|srcs| - 1]) + [Move(srcs[|srcs| - 1], pos.ep, Pawn, Pawn, true, None)]
  }

  /** What `PawnMoves(pos)` returns: the moves of each pawn, lowest square first, then the en passant captures. */
  function PawnMoveList(pos: Position): seq<Move>
    requires Consistent(pos)
  {
    PawnMovesFrom(pos, BitsOf(pos.Pieces(pos.toMove, Pawn))) +
    (if pos.ep != 0 then EPMoves(pos, BitsOf(EPSources(pos))) else [])
  }

  /** One more square of `froms` adds that pawn's advances and captures at the end. */
  lemma PawnMovesFromNext(pos: Position, froms: seq<Square>, i: nat)
    requires Consistent(pos) && i < |froms|
    ensures PawnMovesFrom(pos, froms[..i + 1]) ==
      PawnMovesFrom(pos, froms[..i]) +
      PawnMovesTo(pos, froms[i], BitsOf(Advances(pos, froms[i])), false) +
      PawnMovesTo(pos, froms[i], BitsOf(Captures(pos, froms[i])), true)
  {
    assert froms[..i + 1][..i] == froms[..i];
  }

  // ---------------------------------------------------------------- the generator

  /**
   * `PawnMoves`: for each of the mover's pawns, its advances and then its
   * captures, and last, when there is an en passant target, the captures onto it.
   */
  method PawnMoves(pos: Position) returns (moves: seq<Move>)
    requires Consistent(pos)
    ensures moves == PawnMoveList(pos)
  {
    var froms := RangeBits(pos.Pieces(pos.toMove, Pawn));
    moves := PawnsFrom(pos, froms);
    if pos.ep != 0 {
      var srcs := RangeBits(EPSources(pos));
      var captures := EPCaptures(pos, srcs);
      moves := moves + captures;
    }
  }

  /** The outer `rangeBits` of `PawnMoves`: the advances and captures of the pawns on `froms`. */
  method PawnsFrom(pos: Position, froms: seq<Square>) returns (moves: seq<Move>)
    requires Consistent(pos)
    ensures moves == PawnMovesFrom(pos, froms)
  {
    moves := [];
    for i := 0 to |froms|
      invariant moves == PawnMovesFrom(pos, froms[..i])
    {
      var from := froms[i];
      var tos := RangeBits(Advances(pos, from));
      var advances := PawnTargets(pos, from, tos, false);
      tos := RangeBits(Captures(pos, from));
      var captures := PawnTargets(pos, from, tos, true);
      PawnMovesFromNext(pos, froms, i);
      moves := moves + advances + captures;
    }
    assert froms[..|froms|] == froms;
  }

  /** The `rangeBits` over the en passant capturers: a pawn capture onto `ep` from each of `srcs`. */
  method EPCaptures(pos: Position, srcs: seq<Square>) returns (moves: seq<Move>)
    ensures moves == EPMoves(pos, srcs)
  {
    moves := [];
    for i := 0 to |srcs|
      invariant moves == EPMoves(pos, srcs[..i])
    {
      assert srcs[..i + 1][..i] == srcs[..i];
      moves := moves + [Move(srcs[i], pos.ep, Pawn, Pawn, true, None)];
    }
    assert srcs[..|srcs|] == srcs;
  }

  /**
   * The body of an inner `rangeBits` of `PawnMoves`: the moves of the pawn on
   * `from` onto each of `tos`; a capture reads the captured piece with `PieceOn`.
   */
  method PawnTargets(pos: Position, from: Square, tos: seq<Square>, capture: bool) returns (moves: seq<Move>)
    requires Consistent(pos)
    requires capture ==> forall j :: 0 <= j < |tos| ==> Has(pos.Pieces(pos.Opp(), All), tos[j])
    ensures moves == PawnMovesTo(pos, from, tos, capture)
  {
    moves := [];
    for j := 0 to |tos|
      invariant moves == PawnMovesTo(pos, from, tos[..j], capture)
    {
      var to := tos[j];
      var cp := None;
      if capture {
        ConsistentDefined(pos, to);
        var (_, p) := PieceOn(pos, to);
        cp := p;
      }
      var onto := MovesOnto(pos.toMove, from, to, cp);
      assert tos[..j + 1][..j] == tos[..j];
      moves := moves + onto;
    }
    assert tos[..|tos|] == tos;
  }

  /** The moves onto one square: the loop over `Queen, Rook, Bishop, Knight` on the promotion rank. */
  method MovesOnto(c: Color, from: Square, to: Square, cp: Piece) returns (moves: seq<Move>)
    ensures moves == PawnMovesOnto(c, from, to, cp)
  {
    if Rank(to) == PromoteRank(c) {
      moves := [];
      for k := 0 to |Promotions|
        invariant moves == PawnMovesOnto(c, from, to, cp)[..k]
      {
        moves := moves + [Move(from, to, Pawn, cp, false, Promotions[k])];
      }
      return;
    }
    moves := [Move(from, to, Pawn, cp, false, None)];
  }

  // ---------------------------------------------------------------- which moves PawnMoves generates

  /** A pawn move promotes to one of the four pieces exactly when it reaches the promotion rank. */
  predicate PromotesRight(c: Color, m: Move)
  {
    if Rank(m.to) == PromoteRank(c) then m.promotePiece in Promotions else m.promotePiece == None
  }

  /** The moves onto one square are the pawn's moves from `from` to `to` capturing cp, promoting as the rank demands. */
  lemma PawnMovesOntoIff(c: Color, from: Square, to: Square, cp: Piece, m: Move)
    ensures m in PawnMovesOnto(c, from, to, cp) <==>
      m.from == from && m.to == to && m.piece == Pawn && m.capturePiece == cp && !m.ep && PromotesRight(c, m)
  {
    var ms := PawnMovesOnto(c, from, to, cp);
    if Rank(to) == PromoteRank(c) && m.from == from && m.to == to && m.piece == Pawn && m.capturePiece == cp && !m.ep && m.promotePiece in Promotions {
      var i :| 0 <= i < |Promotions| && Promotions[i] == m.promotePiece;
      assert ms[i] == m;
    }
  }

  lemma {:induction false} PawnMovesToIff(pos: Position, from: Square, tos: seq<Square>, capture: bool, m: Move)
    requires Consistent(pos)
    ensures m in PawnMovesTo(pos, from, tos, capture) <==>
      m.to in tos && m.from == from && m.piece == Pawn && !m.ep && PromotesRight(pos.toMove, m) &&
      m.capturePiece == (if capture then CaptureOn(pos, m.to) else None)
  {
    if tos != [] {
      var to := tos[|tos| - 1];
      PawnMovesToIff(pos, from, tos[..|tos| - 1], capture, m);
      PawnMovesOntoIff(pos.toMove, from, to, if capture then CaptureOn(pos, to) else None, m);
      InLast(tos, m.to);
    }
  }

  /** A pawn move other than en passant: an advance onto an empty square or a capture of what stands on `to`. */
  predicate PawnStep(pos: Position, m: Move)
    requires Consistent(pos)
  {
    m.piece == Pawn && !m.ep && PromotesRight(pos.toMove, m) &&
    ((Has(Advances(pos, m.from), m.to) && m.capturePiece == None) ||
     (Has(Captures(pos, m.from), m.to) && m.capturePiece == CaptureOn(pos, m.to)))
  }

  lemma {:induction false} PawnMovesFromIff(pos: Position, froms: seq<Square>, m: Move)
    requires Consistent(pos)
    ensures m in PawnMovesFrom(pos, froms) <==> m.from in froms && PawnStep(pos, m)
  {
    if froms != [] {
      var from, pre := froms[|froms| - 1], froms[..|froms| - 1];
      var advances := PawnMovesTo(pos, from, BitsOf(Advances(pos, from)), false);
      var captures := PawnMovesTo(pos, from, BitsOf(Captures(pos, from)), true);
      PawnMovesFromIff(pos, pre, m);
      PawnMovesToIff(pos, from, BitsOf(Advances(pos, from)), false, m);
      PawnMovesToIff(pos, from, BitsOf(Captures(pos, from)), true, m);
      InLast(froms, m.from);
      InConcat(PawnMovesFrom(pos, pre), advances, m);
      InConcat(PawnMovesFrom(pos, pre) + advances, captures, m);
    }
  }

  lemma {:induction false} EPMovesIff(pos: Position, srcs: seq<Square>, m: Move)
    ensures m in EPMoves(pos, srcs) <==> m.from in srcs && m == Move(m.from, pos.ep, Pawn, Pawn, true, None)
  {
    if srcs != [] {
      EPMovesIff(pos, srcs[..|srcs| - 1], m);
      InLast(srcs, m.from);
    }
  }

  // ---------------------------------------------------------------- geometry

  /**
   * A pawn of the mover on `from` advances to `to`: one rank forward onto an
   * empty square, or two ranks forward through an empty square onto an empty
   * square of the fourth rank from the mover's side (rank 3 or 4 counted from
   * 0), which the `<<32>>32` mask also allows from the first rank.
   */
  predicate PawnPush(pos: Position, from: Square, to: Square)
    requires from < 64 && to < 64
  {
    var e := EmptySquares(pos);
    if pos.toMove == White then
      (to == from + 8 && e[to]) || (16 <= to < 32 && to == from + 16 && e[from + 8] && e[to])
    else
      (to + 8 == from && e[to]) || (32 <= to < 48 && to + 16 == from && e[to + 8] && e[to])
  }

  lemma AdvancesIff(pos: Position, from: Square, to: Square)
    requires from < 64
    ensures Has(Advances(pos, from), to) <==> to < 64 && PawnPush(pos, from, to)
  {
    if to < 64 {
      var f := SquareBoard(from);
      assert forall s :: 0 <= s < 64 ==> (f[s] <==> s == from) by {
        forall s | 0 <= s < 64 ensures f[s] <==> s == from { assert Has(f, s) <==> s == from; }
      }
    }
  }

  lemma CapturesIff(pos: Position, from: Square, to: Square)
    requires from < 64
    ensures Has(Captures(pos, from), to) <==>
      to < 64 && Has(pos.Pieces(pos.Opp(), All), to) && PawnCapture(pos.toMove, from, to)
  {
    if to < 64 {
      PawnAttacksSquare(pos.toMove, from, to);
    }
  }

  /** The mover's pawns beside the square `ep ^ 8` on its rank are the en passant capturers. */
  lemma EPSourcesIff(pos: Position, s: Square)
    ensures Has(EPSources(pos), s) <==>
      s < 64 && Has(pos.Pieces(pos.toMove, Pawn), s) && FlipRank(pos.ep) < 64 &&
      ((pos.ep % 8 != 0 && s == FlipRank(pos.ep) - 1) || (pos.ep % 8 != 7 && s == FlipRank(pos.ep) + 1))
  {
    var v := FlipRank(pos.ep);
    if v < 64 {
      if s < 64 {
        ShiftSquareAt(W, v, s);
        ShiftSquareAt(E, v, s);
      }
    } else {
      SquareBoardOff(v);
      ShiftEmpty(W);
      ShiftEmpty(E);
    }
  }

  /** An advance lands on an empty square, so it captures what `CaptureOn` finds there: nothing. */
  lemma AdvanceCapturesNothing(pos: Position, from: Square, to: Square)
    requires Consistent(pos) && from < 64
    requires Has(Advances(pos, from), to)
    ensures CaptureOn(pos, to) == None
  {
    AdvancesIff(pos, from, to);
    assert EmptySquares(pos)[to];
  }

  /** A pawn step of the mover's pawn on `from`, stated square by square. */
  lemma PawnStepIff(pos: Position, m: Move)
    requires Consistent(pos) && m.from < 64
    ensures PawnStep(pos, m) <==>
      m.to < 64 && m.piece == Pawn && !m.ep && PromotesRight(pos.toMove, m) && m.capturePiece == CaptureOn(pos, m.to) &&
      (PawnPush(pos, m.from, m.to) || (Has(pos.Pieces(pos.Opp(), All), m.to) && PawnCapture(pos.toMove, m.from, m.to)))
  {
    AdvancesIff(pos, m.from, m.to);
    CapturesIff(pos, m.from, m.to);
    if Has(Advances(pos, m.from), m.to) {
      AdvanceCapturesNothing(pos, m.from, m.to);
    }
  }

  /** The pawn steps of `PawnMoves` are the pushes and captures of the mover's pawns. */
  lemma PawnStepsIff(pos: Position, m: Move)
    requires Consistent(pos)
    ensures m in PawnMovesFrom(pos, BitsOf(pos.Pieces(pos.toMove, Pawn))) <==>
      m.from < 64 && m.to < 64 && m.piece == Pawn && Has(pos.Pieces(pos.toMove, Pawn), m.from) &&
      !m.ep && PromotesRight(pos.toMove, m) && m.capturePiece == CaptureOn(pos, m.to) &&
      (PawnPush(pos, m.from, m.to) || (Has(pos.Pieces(pos.Opp(), All), m.to) && PawnCapture(pos.toMove, m.from, m.to)))
  {
    PawnMovesFromIff(pos, BitsOf(pos.Pieces(pos.toMove, Pawn)), m);
    if m.from < 64 {
      PawnStepIff(pos, m);
    }
  }

  /** The en passant captures of `PawnMoves` come from the mover's pawns beside `ep ^ 8`. */
  lemma EPCapturesIff(pos: Position, m: Move)
    requires pos.ep != 0
    ensures m in EPMoves(pos, BitsOf(EPSources(pos))) <==>
      m.from < 64 && m.to < 64 && m.piece == Pawn && Has(pos.Pieces(pos.toMove, Pawn), m.from) &&
      m.ep && m.to == pos.ep && m.capturePiece == Pawn && m.promotePiece == None &&
      ((pos.ep % 8 != 0 && m.from == FlipRank(pos.ep) - 1) || (pos.ep % 8 != 7 && m.from == FlipRank(pos.ep) + 1))
  {
    EPMovesIff(pos, BitsOf(EPSources(pos)), m);
    EPSourcesIff(pos, m.from);
    if FlipRank(pos.ep) < 64 {
      assert pos.ep < 64;
    }
  }

  /**
   * `PawnMoves(pos)` holds exactly: each push of a mover's pawn onto an empty
   * square and each diagonal capture of an opponent's piece, promoting to each
   * of the four pieces on the last rank and to none elsewhere; and, when there
   * is an en passant target, the capture of a pawn onto it from each of the
   * mover's pawns beside the square `ep ^ 8`.
   */
  lemma PawnMoveListIff(pos: Position, m: Move)
    requires Consistent(pos)
    ensures m in PawnMoveList(pos) <==>
      m.from < 64 && m.to < 64 && m.piece == Pawn && Has(pos.Pieces(pos.toMove, Pawn), m.from) &&
      ((!m.ep && PromotesRight(pos.toMove, m) && m.capturePiece == CaptureOn(pos, m.to) &&
        (PawnPush(pos, m.from, m.to) || (Has(pos.Pieces(pos.Opp(), All), m.to) && PawnCapture(pos.toMove, m.from, m.to)))) ||
       (m.ep && pos.ep != 0 && m.to == pos.ep && m.capturePiece == Pawn && m.promotePiece == None &&
        ((pos.ep % 8 != 0 && m.from == FlipRank(pos.ep) - 1) || (pos.ep % 8 != 7 && m.from == FlipRank(pos.ep) + 1))))
  {
    var steps := PawnMovesFrom(pos, BitsOf(pos.Pieces(pos.toMove, Pawn)));
    PawnStepsIff(pos, m);
    if pos.ep != 0 {
      EPCapturesIff(pos, m);
      InConcat(steps, EPMoves(pos, BitsOf(EPSources(pos))), m);
    } else {
      assert PawnMoveList(pos) == steps;
    }
  }
}

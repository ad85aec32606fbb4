/**
 * Move generation of move.go: the pseudo-legal moves of each kind of piece, the
 * counting sort that orders them by capture, the legal-move filter and the
 * early-exit search for a legal move.
 *
 * Every generator is a method that walks the set squares of its boards in the
 * order `rangeBits` visits them, proved equal to a list function that states
 * the same walk as a recursion; lemmas then say which moves those lists hold.
 */
module MoveGen {
  import opened Bits
  import opened Chess
  import opened Attacks
  import opened Moves

  // ---------------------------------------------------------------- pieces other than pawns

  /** The kinds `pMoves` handles: every real piece but the pawn. */
  predicate NonPawn(p: Piece)
  {
    p.IsReal() && p != Pawn
  }

  /** The `pAttacks` `pMoves` picks for p: the table of a leaper, the fills of a slider. */
  function PieceAttacks(p: Piece, f: Board, empty: Board): Board
    requires NonPawn(p) && NonZero(f)
  {
    match p
    case Knight => KnightAttacks(f)
    case Bishop => BishopAttacks(f, empty)
    case Rook => RookAttacks(f, empty)
    case Queen => QueenAttacks(f, empty)
    case _ => KingAttacks(f)
  }

  /** A single square on the board is a non-empty board. */
  lemma SquareNonZero(s: Square)
    requires s < 64
    ensures NonZero(SquareBoard(s))
  {
    assert SquareBoard(s)[s] by { assert Has(SquareBoard(s), s); }
  }

  /** The squares a piece of kind p of the mover on `from` moves to: its attacks that the mover does not occupy. */
  function Targets(pos: Position, p: Piece, from: Square): Board
    requires NonPawn(p) && from < 64
  {
    SquareNonZero(from);
    AndNot(PieceAttacks(p, SquareBoard(from), EmptySquares(pos)), pos.Pieces(pos.toMove, All))
  }

  /** The piece a move to s captures: the opponent's piece there, or None. */
  function CaptureOn(pos: Position, s: Square): (p: Piece)
    requires Consistent(pos)
    ensures p != All
  {
    ConsistentDefined(pos, s);
    if Has(pos.Pieces(pos.Opp(), All), s) then PieceOn(pos, s).1 else None
  }

  /** The move of the mover's piece of kind p from `from` to `to`, capturing whatever the opponent has there. */
  function PieceMove(pos: Position, p: Piece, from: Square, to: Square): Move
    requires Consistent(pos)
  {
    Move(from, to, p, CaptureOn(pos, to), false, None)
  }

  /** The moves of the piece on `from` to each square of `tos`, in order. */
  function PieceMovesTo(pos: Position, p: Piece, from: Square, tos: seq<Square>): (ms: seq<Move>)
    requires Consistent(pos)
  {
    if tos == [] then []
    else PieceMovesTo(pos, p, from, tos[..|tos| - 1]) + [PieceMove(pos, p, from, tos[|tos| - 1])]
  }

  /** The moves of the mover's pieces of kind p on the squares `froms`, square by square. */
  function PieceMovesFrom(pos: Position, p: Piece, froms: seq<Square>): seq<Move>
    requires Consistent(pos) && NonPawn(p)
    requires forall i :: 0 <= i < |froms| ==> froms[i] < 64
  {
    if froms == [] then []
    else
      var from := froms[|froms| - 1];
      PieceMovesFrom(pos, p, froms[..|froms| - 1]) + PieceMovesTo(pos, p, from, BitsOf(Targets(pos, p, from)))
  }

  /** What `pMoves(pos, p)` returns: the moves of the mover's pieces of kind p, lowest square first. */
  function PieceMoveList(pos: Position, p: Piece): seq<Move>
    requires Consistent(pos) && NonPawn(p)
  {
    PieceMovesFrom(pos, p, BitsOf(pos.Pieces(pos.toMove, p)))
  }

  /** One more square of `froms` adds that square's moves at the end. */
  lemma PieceMovesFromNext(pos: Position, p: Piece, froms: seq<Square>, i: nat)
    requires Consistent(pos) && NonPawn(p) && i < |froms|
    requires forall j :: 0 <= j < |froms| ==> froms[j] < 64
    ensures PieceMovesFrom(pos, p, froms[..i + 1]) ==
      PieceMovesFrom(pos, p, froms[..i]) + PieceMovesTo(pos, p, froms[i], BitsOf(Targets(pos, p, froms[i])))
  {
    assert froms[..i + 1][..i] == froms[..i];
  }

  /**
   * `pMoves`: for each of the mover's pieces of kind p, each attacked square the
   * mover does not occupy, as a capture of the piece found there when the
   * opponent occupies it.
   */
  method PieceMoves(pos: Position, p: Piece) returns (moves: seq<Move>)
    requires Consistent(pos) && NonPawn(p)
    ensures moves == PieceMoveList(pos, p)
  {
    moves := [];
    var froms := RangeBits(pos.Pieces(pos.toMove, p));
    for i := 0 to |froms|
      invariant moves == PieceMovesFrom(pos, p, froms[..i])
    {
      var tos := RangeBits(Targets(pos, p, froms[i]));
      var targets := MovesTo(pos, p, froms[i], tos);
      PieceMovesFromNext(pos, p, froms, i);
      moves := moves + targets;
    }
    assert froms[..|froms|] == froms;
  }

  /** The body of the inner `rangeBits` of `pMoves`: the moves of the piece on `from` to each of `tos`. */
  method MovesTo(pos: Position, p: Piece, from: Square, tos: seq<Square>) returns (moves: seq<Move>)
    requires Consistent(pos)
    ensures moves == PieceMovesTo(pos, p, from, tos)
  {
    moves := [];
    for j := 0 to |tos|
      invariant moves == PieceMovesTo(pos, p, from, tos[..j])
    {
      var to := tos[j];
      var m := Move(from, to, p, None, false, None);
      if Has(pos.Pieces(pos.Opp(), All), to) {
        ConsistentDefined(pos, to);
        var (_, capturePiece) := PieceOn(pos, to);
        m := m.(capturePiece := capturePiece);
      }
      assert tos[..j + 1][..j] == tos[..j];
      moves := moves + [m];
    }
    assert tos[..|tos|] == tos;
  }

  // ---------------------------------------------------------------- which moves pMoves generates

  /** A piece other than a pawn alone on `from` attacks t exactly when it reaches t over the board's empty squares. */
  lemma PieceAttacksReach(c: Color, p: Piece, from: Square, empty: Board, t: int)
    requires NonPawn(p) && from < 64 && 0 <= t < 64
    ensures NonZero(SquareBoard(from))
    ensures PieceAttacks(p, SquareBoard(from), empty)[t] <==> Reaches(c, p, from, t, empty)
  {
    SquareNonZero(from);
    LeapersOfSquare(from);
    match p
    case Knight => KnightTableGeometry(from, t);
    case Bishop => BishopAttacksSquare(from, empty, t);
    case Rook => RookAttacksSquare(from, empty, t);
    case Queen => BishopAttacksSquare(from, empty, t); RookAttacksSquare(from, empty, t);
    case King => KingTableGeometry(from, t);
  }

  /** The targets of the piece on `from`: the squares it reaches that the mover does not occupy. */
  lemma TargetsIff(pos: Position, p: Piece, from: Square, to: Square)
    requires NonPawn(p) && from < 64
    ensures Has(Targets(pos, p, from), to) <==>
      to < 64 && !Has(pos.Pieces(pos.toMove, All), to) && Reaches(pos.toMove, p, from, to, EmptySquares(pos))
  {
    if to < 64 {
      PieceAttacksReach(pos.toMove, p, from, EmptySquares(pos), to);
    }
  }

  lemma {:induction false} PieceMovesToIff(pos: Position, p: Piece, from: Square, tos: seq<Square>, m: Move)
    requires Consistent(pos)
    ensures m in PieceMovesTo(pos, p, from, tos) <==> m.to in tos && m == PieceMove(pos, p, from, m.to)
  {
    if tos != [] {
      PieceMovesToIff(pos, p, from, tos[..|tos| - 1], m);
      assert tos == tos[..|tos| - 1] + [tos[|tos| - 1]];
    }
  }

  lemma {:induction false} PieceMovesFromIff(pos: Position, p: Piece, froms: seq<Square>, m: Move)
    requires Consistent(pos) && NonPawn(p)
    requires forall i :: 0 <= i < |froms| ==> froms[i] < 64
    ensures m in PieceMovesFrom(pos, p, froms) <==>
      m.from in froms && m.from < 64 && Has(Targets(pos, p, m.from), m.to) && m == PieceMove(pos, p, m.from, m.to)
  {
    if froms != [] {
      var from, pre := froms[|froms| - 1], froms[..|froms| - 1];
      PieceMovesFromIff(pos, p, pre, m);
      PieceMovesToIff(pos, p, from, BitsOf(Targets(pos, p, from)), m);
      InLast(froms, m.from);
      InConcat(PieceMovesFrom(pos, p, pre), PieceMovesTo(pos, p, from, BitsOf(Targets(pos, p, from))), m);
    }
  }

  /** An element of a non-empty sequence is in its prefix or is its last element. */
  lemma InLast<T>(s: seq<T>, x: T)
    requires s != []
    ensures x in s <==> x in s[..|s| - 1] || x == s[|s| - 1]
  {
    assert s == s[..|s| - 1] + [s[|s| - 1]];
  }

  /** An element of a concatenation is in one of its parts. */
  lemma InConcat<T>(a: seq<T>, b: seq<T>, x: T)
    ensures x in a + b <==> x in a || x in b
  {
  }

  /**
   * `pMoves(pos, p)` holds exactly the moves of a mover's piece of kind p to a
   * square it reaches and the mover does not occupy, each capturing the
   * opponent's piece there if there is one, never en passant, never promoting.
   */
  lemma PieceMoveListIff(pos: Position, p: Piece, m: Move)
    requires Consistent(pos) && NonPawn(p)
    ensures m in PieceMoveList(pos, p) <==>
      m.from < 64 && m.to < 64 && m.piece == p && Has(pos.Pieces(pos.toMove, p), m.from) &&
      !Has(pos.Pieces(pos.toMove, All), m.to) && Reaches(pos.toMove, p, m.from, m.to, EmptySquares(pos)) &&
      m.capturePiece == CaptureOn(pos, m.to) && !m.ep && m.promotePiece == None
  {
    PieceMovesFromIff(pos, p, BitsOf(pos.Pieces(pos.toMove, p)), m);
    if m.from < 64 {
      TargetsIff(pos, p, m.from, m.to);
    }
  }
}

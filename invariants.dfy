/**
 * An invariant that legal moves keep, and what it buys: `Make` of a generated
 * move never puts two pieces on one square, so the Zobrist bitstring it
 * updates incrementally stays the hash of the position; and a legal move
 * leads to a position that keeps the invariant again.
 */
module Invariants {
  import opened Bits
  import opened Chess
  import opened Attacks
  import opened Zobrist
  import opened Moves
  import opened MoveGen
  import opened PawnGen
  import opened Castling
  import opened Generate
  import opened Legality

  // ---------------------------------------------------------------- the invariant

  /** Each king stands on the square `KingSquare` records for it. */
  predicate KingsPlaced(pos: Position)
  {
    forall c: Color :: Has(pos.Pieces(c, King), pos.King(c))
  }

  /** Every castling right still held has its rook on its corner. */
  predicate RooksHome(pos: Position)
  {
    forall c: Color, side: Side :: pos.Castle(c, side) ==> Has(pos.Pieces(c, Rook), Corner(c, side))
  }

  /** An en passant target is empty, and the pawn that passed over it stands one rank beyond it. */
  predicate EPPlaced(pos: Position)
  {
    pos.ep != 0 ==>
      !Has(pos.Pieces(White, All), pos.ep) && !Has(pos.Pieces(Black, All), pos.ep) &&
      Has(pos.Pieces(pos.Opp(), Pawn), FlipRank(pos.ep))
  }

  /**
   * The positions the engine plays through: one piece at most on each square,
   * kings where `KingSquare` says, a rook behind each castling right, an en
   * passant target that a double push has just passed over, and the side
   * that has just moved not left in check.
   */
  predicate Sound(pos: Position)
  {
    Valid(pos) && Playable(pos) && EPValid(pos) && KingsPlaced(pos) && RooksHome(pos) && EPPlaced(pos) &&
    pos.King(pos.Opp()) < 64 && IsLegal(pos)
  }

  // ---------------------------------------------------------------- boards square by square

  /** Colour c has a piece of kind p on square t (for All: any piece). */
  predicate On(b: Armies, c: Color, p: Piece, t: Square)
  {
    t < 64 && b[c.Index()][p.Index()][t]
  }

  /** `Valid`, stated of the piece boards alone. */
  predicate ValidBoards(b: Armies)
  {
    ArmyValid(b[0]) && ArmyValid(b[1]) && forall i :: 0 <= i < 64 ==> !(b[0][7][i] && b[1][7][i])
  }

  lemma ValidBoardsOf(pos: Position)
    ensures Valid(pos) <==> ValidBoards(pos.b)
  {
    ValidArmies(pos);
  }

  /** On valid boards a piece is in its army's All board, and no other piece shares its square. */
  lemma OnlyOne(b: Armies, c: Color, p: Piece, d: Color, q: Piece, t: Square)
    requires ValidBoards(b) && p.IsReal() && q.IsReal() && On(b, c, p, t)
    ensures On(b, c, All, t)
    ensures On(b, d, q, t) ==> d == c && q == p
  {
    var a := b[c.Index()];
    assert CountAt(a, t) <= 1 && (a[7][t] <==> CountAt(a, t) == 1);
    assert CountAt(b[d.Index()], t) <= 1;
    if On(b, d, q, t) && d == c {
      PieceIndexInjective(p, q);
    }
  }

  /** Taking c's piece of kind p off square s keeps the boards valid and empties s. */
  lemma TakeOff(b: Armies, c: Color, p: Piece, s: Square)
    requires ValidBoards(b) && p.IsReal() && On(b, c, p, s)
    ensures ValidBoards(ToggleIn(b, c, p, s))
    ensures forall d: Color, q: Piece, t: Square {:trigger On(ToggleIn(b, c, p, s), d, q, t)} :: q != None ==>
      On(ToggleIn(b, c, p, s), d, q, t) == (On(b, d, q, t) && !(d == c && t == s))
  {
    var r := ToggleIn(b, c, p, s);
    ArmyRemove(b[c.Index()], p, s);
    assert r[c.Opp().Index()] == b[c.Opp().Index()];
    assert r[c.Index()] == ArmyToggle(b[c.Index()], p, s);
    forall d: Color, q: Piece, t: Square | q != None
      ensures On(r, d, q, t) == (On(b, d, q, t) && !(d == c && t == s))
    {
      if d != c {
        assert d == c.Opp();
      }
    }
  }

  /** Putting c's piece of kind p on an empty square s keeps the boards valid and fills s. */
  lemma PutOn(b: Armies, c: Color, p: Piece, s: Square)
    requires ValidBoards(b) && p.IsReal() && s < 64 && !On(b, White, All, s) && !On(b, Black, All, s)
    ensures ValidBoards(ToggleIn(b, c, p, s))
    ensures forall d: Color, q: Piece, t: Square {:trigger On(ToggleIn(b, c, p, s), d, q, t)} :: q != None ==>
      On(ToggleIn(b, c, p, s), d, q, t) == (On(b, d, q, t) || (d == c && t == s && (q == p || q == All)))
  {
    var r := ToggleIn(b, c, p, s);
    assert !b[c.Index()][7][s] by { assert c == White || c == Black; }
    ArmyPlace(b[c.Index()], p, s);
    assert r[c.Opp().Index()] == b[c.Opp().Index()];
    assert r[c.Index()] == ArmyToggle(b[c.Index()], p, s);
    forall d: Color, q: Piece, t: Square | q != None
      ensures On(r, d, q, t) == (On(b, d, q, t) || (d == c && t == s && (q == p || q == All)))
    {
      if d != c {
        assert d == c.Opp();
      } else if t == s && q != p && q != All {
        PieceIndexInjective(p, q);
      }
    }
    forall i | 0 <= i < 64
      ensures !(r[0][7][i] && r[1][7][i])
    {
      assert r[0][7][i] == On(r, White, All, i) && r[1][7][i] == On(r, Black, All, i);
    }
  }

  /** Toggles in the two armies do not interfere: they can be done in either order. */
  lemma ToggleCommute(b: Armies, c: Color, p: Piece, s: Square, q: Piece, t: Square)
    requires p.IsReal() && s < 64 && q.IsReal() && t < 64
    ensures ToggleIn(ToggleIn(b, c, p, s), c.Opp(), q, t) == ToggleIn(ToggleIn(b, c.Opp(), q, t), c, p, s)
  {
  }

  // ---------------------------------------------------------------- ordinary moves

  /**
   * What the generators promise of a move that is not a castling: the mover's
   * piece stands on From, To is not the mover's, the captured piece is the
   * opponent's piece on To (or, en passant, the pawn behind the target), a
   * capture is made along the piece's own line of attack, a pawn's quiet move
   * is a push, a pawn promotes exactly on the last rank, and only a pawn
   * promotes, to one of the four pieces.
   */
  ghost predicate Ordinary(pos: Position, m: Move)
  {
    Consistent(pos) && MoveDefined(m) && !m.IsCastle().1 &&
    Has(pos.Pieces(pos.toMove, m.piece), m.from) && !Has(pos.Pieces(pos.toMove, All), m.to) &&
    (m.ep ==> m.piece == Pawn && pos.ep != 0 && m.to == pos.ep && m.capturePiece == Pawn && m.promotePiece == None) &&
    (!m.ep ==> m.capturePiece == CaptureOn(pos, m.to)) &&
    (!m.ep && m.IsCapture() ==> Reaches(pos.toMove, m.piece, m.from, m.to, EmptySquares(pos))) &&
    (m.piece == Pawn && !m.ep && !m.IsCapture() ==> PawnPush(pos, m.from, m.to)) &&
    (m.piece == Pawn && !m.ep ==> PromotesRight(pos.toMove, m)) &&
    (m.IsPromotion() ==> m.piece == Pawn && m.promotePiece in Promotions)
  }

  /** The piece that ends up on To: the promoted piece, or the piece that moved. */
  function Landed(m: Move): Piece
  {
    if m.IsPromotion() then m.promotePiece else m.piece
  }

  /** On valid boards `CaptureOn` names the opponent's piece standing on a square the mover does not hold. */
  lemma CaptureOnValid(pos: Position, s: Square)
    requires Valid(pos) && s < 64 && !Has(pos.Pieces(pos.toMove, All), s)
    ensures Consistent(pos)
    ensures CaptureOn(pos, s) == None <==> !Has(pos.Pieces(pos.Opp(), All), s)
    ensures CaptureOn(pos, s) != None ==> CaptureOn(pos, s).IsReal() && On(pos.b, pos.Opp(), CaptureOn(pos, s), s)
  {
    ValidConsistent(pos);
    ConsistentDefined(pos, s);
    assert ValidAt(pos, s);
  }

  /** The capture can be made before the move: the two touch different armies. */
  lemma CaptureFirst(b: Armies, c: Color, m: Move)
    requires MoveDefined(m)
    ensures CapturedBoards(MovedBoards(b, c, m), c, m) == MovedBoards(CapturedBoards(b, c, m), c, m)
  {
    if m.IsCapture() {
      var cs := CaptureSquare(m);
      assert cs < 64 by {
        if m.ep {
          assert FlipRank(m.to) < 64;
        }
      }
      ToggleCommute(b, c, m.piece, m.from, m.capturePiece, cs);
      ToggleCommute(ToggleIn(b, c, m.piece, m.from), c, m.piece, m.to, m.capturePiece, cs);
    }
  }

  /** The opponent's side of an ordinary move: the captured piece leaves, and To is then free of them. */
  lemma CaptureStep(pos: Position, m: Move)
    requires Valid(pos) && EPPlaced(pos) && Ordinary(pos, m)
    ensures var b1 := CapturedBoards(pos.b, pos.toMove, m);
      ValidBoards(b1) && !On(b1, pos.Opp(), All, m.to) && !On(b1, pos.toMove, All, m.to) &&
      (forall d: Color, q: Piece, t: Square :: q != None ==>
        On(b1, d, q, t) == (On(pos.b, d, q, t) && !(m.IsCapture() && d == pos.Opp() && t == CaptureSquare(m))))
  {
    var c, o := pos.toMove, pos.Opp();
    var b1 := CapturedBoards(pos.b, c, m);
    ValidBoardsOf(pos);
    if m.IsCapture() {
      var cs := CaptureSquare(m);
      if m.ep {
        assert On(pos.b, o, Pawn, cs);
        TakeOff(pos.b, o, Pawn, cs);
      } else {
        CaptureOnValid(pos, m.to);
        TakeOff(pos.b, o, m.capturePiece, cs);
      }
    } else {
      CaptureOnValid(pos, m.to);
    }
  }

  /** The mover's side of an ordinary move: the piece leaves From and arrives on To, promoted if it promotes. */
  lemma MoverStep(b1: Armies, c: Color, m: Move)
    requires ValidBoards(b1) && MoveDefined(m) && !m.IsCastle().1
    requires On(b1, c, m.piece, m.from) && !On(b1, White, All, m.to) && !On(b1, Black, All, m.to)
    requires m.IsPromotion() ==> m.piece == Pawn && m.promotePiece.IsReal()
    ensures var r := PromotedBoards(CastledBoards(MovedBoards(b1, c, m), c, m), c, m);
      ValidBoards(r) && On(r, c, Landed(m), m.to) &&
      (forall d: Color, q: Piece, t: Square :: q != None && t != m.from && t != m.to ==> On(r, d, q, t) == On(b1, d, q, t))
  {
    var b2 := ToggleIn(b1, c, m.piece, m.from);
    TakeOff(b1, c, m.piece, m.from);
    assert m.from != m.to;
    var b3 := ToggleIn(b2, c, m.piece, m.to);
    PutOn(b2, c, m.piece, m.to);
    assert MovedBoards(b1, c, m) == b3;
    assert CastledBoards(b3, c, m) == b3;
    if m.IsPromotion() {
      var b4 := ToggleIn(b3, c, Pawn, m.to);
      TakeOff(b3, c, Pawn, m.to);
      PutOn(b4, c, m.promotePiece, m.to);
    }
  }

  /**
   * `Make` of an ordinary move keeps the boards valid: it changes only From, To
   * and the captured square, and leaves the mover's landed piece on To.
   */
  lemma OrdinaryBoards(pos: Position, m: Move)
    requires Valid(pos) && EPPlaced(pos) && Ordinary(pos, m)
    ensures var r := MakeBoards(pos, m);
      ValidBoards(r) && On(r, pos.toMove, Landed(m), m.to) &&
      (forall d: Color, q: Piece, t: Square ::
        q != None && t != m.from && t != m.to && !(m.IsCapture() && t == CaptureSquare(m)) ==> On(r, d, q, t) == On(pos.b, d, q, t))
  {
    var c := pos.toMove;
    var b1 := CapturedBoards(pos.b, c, m);
    CaptureStep(pos, m);
    CaptureFirst(pos.b, c, m);
    assert On(b1, c, m.piece, m.from);
    assert !On(b1, White, All, m.to) && !On(b1, Black, All, m.to) by {
      assert c == White || c == Black;
    }
    assert m.IsPromotion() ==> m.promotePiece.IsReal();
    MoverStep(b1, c, m);
  }

  // ---------------------------------------------------------------- castling

  /** The boards after castling: the king's two toggles, then the rook's. */
  lemma CastledBoardsOf(pos: Position, side: Side)
    requires Playable(pos) && pos.Castle(pos.toMove, side)
    ensures MakeDefined(pos, CastleMove(pos, side))
    ensures var c, m := pos.toMove, CastleMove(pos, side);
      Made(pos, m).b == ToggleIn(ToggleIn(ToggleIn(ToggleIn(pos.b, c, King, m.from), c, King, m.to),
        c, Rook, RookSquares(m).0), c, Rook, RookSquares(m).1)
  {
    CastleMoveIsCastle(pos, side);
  }

  /**
   * `Make` of a castling `canCastle` allows keeps the boards valid when the
   * right has its rook on the corner: the king lands on To, and the opponent's
   * pieces do not move.
   */
  lemma CastleBoards(pos: Position, side: Side)
    requires Valid(pos) && Playable(pos) && KingsPlaced(pos) && RooksHome(pos) && CastleAllowed(pos, side)
    ensures var m := CastleMove(pos, side);
      MoveDefined(m) && m.IsCastle() == (side, true) &&
      var r := MakeBoards(pos, m);
      ValidBoards(r) && On(r, pos.toMove, King, m.to) &&
      (forall q: Piece, t: Square :: q != None ==> On(r, pos.Opp(), q, t) == On(pos.b, pos.Opp(), q, t))
  {
    var c, m := pos.toMove, CastleMove(pos, side);
    var home := KingHome(c);
    assert pos.King(c) == home;
    CastleMoveIsCastle(pos, side);
    CastledBoardsOf(pos, side);
    var (rookFrom, rookTo) := RookSquares(m);
    assert rookFrom == Corner(c, side);
    assert m.to in CastleEmptyList(c, side) && rookTo in CastleEmptyList(c, side);
    assert rookTo != m.to && rookFrom != m.from;
    ValidBoardsOf(pos);
    var b0 := pos.b;
    assert On(b0, c, King, m.from) && On(b0, c, Rook, rookFrom);
    assert !On(b0, White, All, m.to) && !On(b0, Black, All, m.to) && !On(b0, White, All, rookTo) && !On(b0, Black, All, rookTo);
    hide Valid, Playable, KingsPlaced, RooksHome, CastleAllowed, CastleMove, MakeBoards, Made;
    var b1 := ToggleIn(b0, c, King, m.from);
    TakeOff(b0, c, King, m.from);
    var b2 := ToggleIn(b1, c, King, m.to);
    PutOn(b1, c, King, m.to);
    var b3 := ToggleIn(b2, c, Rook, rookFrom);
    TakeOff(b2, c, Rook, rookFrom);
    PutOn(b3, c, Rook, rookTo);
    assert MakeBoards(pos, m) == ToggleIn(b3, c, Rook, rookTo);
  }

  // ---------------------------------------------------------------- generated moves

  /** A pawn's step onto an empty square or onto an opponent's piece is ordinary. */
  lemma PawnStepOrdinary(pos: Position, m: Move)
    requires Valid(pos) && Consistent(pos) && MoveDefined(m) && m.piece == Pawn && !m.ep
    requires Has(pos.Pieces(pos.toMove, Pawn), m.from) && PromotesRight(pos.toMove, m) && m.capturePiece == CaptureOn(pos, m.to)
    requires PawnPush(pos, m.from, m.to) || (Has(pos.Pieces(pos.Opp(), All), m.to) && PawnCapture(pos.toMove, m.from, m.to))
    ensures Ordinary(pos, m)
  {
    var c := pos.toMove;
    assert c == White || c == Black;
    var e := EmptySquares(pos);
    if PawnPush(pos, m.from, m.to) {
      assert e[m.to];
      assert !Has(pos.Pieces(c, All), m.to) && !Has(pos.Pieces(pos.Opp(), All), m.to);
    } else {
      ValidBoardsOf(pos);
      assert On(pos.b, pos.Opp(), All, m.to);
      assert !Has(pos.Pieces(c, All), m.to);
    }
    CaptureOnValid(pos, m.to);
  }

  /** A pawn move of `PawnMoves` is ordinary. */
  lemma PawnMoveOrdinary(pos: Position, m: Move)
    requires Valid(pos) && Consistent(pos) && EPPlaced(pos) && m in PawnMoveList(pos)
    ensures Ordinary(pos, m)
  {
    PawnMoveListIff(pos, m);
    PawnMoveDefined(pos, m);
    if !m.ep {
      PawnStepOrdinary(pos, m);
    } else {
      assert pos.toMove == White || pos.toMove == Black;
    }
  }

  /** A move of `pMoves` for a piece other than a pawn is ordinary. */
  lemma PieceMoveOrdinary(pos: Position, p: Piece, m: Move)
    requires Consistent(pos) && NonPawn(p) && m in PieceMoveList(pos, p)
    ensures Ordinary(pos, m)
  {
    PieceMoveListIff(pos, p, m);
    PieceMoveDefined(pos, p, m);
    if p == King {
      KingStepNotCastle(m);
    }
  }

  /** Each generated move is ordinary, or a castling `canCastle` allows. */
  lemma GeneratedKinds(pos: Position, m: Move)
    requires Valid(pos) && Playable(pos) && EPPlaced(pos) && m in Generated(pos)
    ensures Ordinary(pos, m) || exists side :: CastleAllowed(pos, side) && m == CastleMove(pos, side)
  {
    hide Ordinary, Generated, PawnMoveList, PieceMoveList, KingMoveList, CastleAllowed, CastleMove, Valid, EPPlaced;
    GeneratedIff(pos, m);
    if m in PawnMoveList(pos) {
      PawnMoveOrdinary(pos, m);
    } else if m in PieceMoveList(pos, Knight) {
      PieceMoveOrdinary(pos, Knight, m);
    } else if m in PieceMoveList(pos, Bishop) {
      PieceMoveOrdinary(pos, Bishop, m);
    } else if m in PieceMoveList(pos, Rook) {
      PieceMoveOrdinary(pos, Rook, m);
    } else if m in PieceMoveList(pos, Queen) {
      PieceMoveOrdinary(pos, Queen, m);
    } else {
      KingMoveListIff(pos, m);
      if m in PieceMoveList(pos, King) {
        PieceMoveOrdinary(pos, King, m);
      }
    }
  }

  /**
   * `Make` of a generated move from a position that keeps the invariant never
   * puts two pieces on one square.
   */
  lemma MadeValid(pos: Position, m: Move)
    requires Sound(pos) && m in Generated(pos)
    ensures MakeDefined(pos, m) && Valid(Made(pos, m))
  {
    GeneratedDefined(pos);
    GeneratedKinds(pos, m);
    var r := Made(pos, m);
    if Ordinary(pos, m) {
      OrdinaryBoards(pos, m);
    } else {
      var side :| CastleAllowed(pos, side) && m == CastleMove(pos, side);
      CastleBoards(pos, side);
    }
    ValidBoardsOf(r);
  }

  /**
   * The incremental hash stays right: if the bitstring of a position that keeps
   * the invariant is its Zobrist hash, so is the bitstring of the position any
   * pseudo-legal move leads to. (`Readable`, which `Hash` needs, follows from
   * `Sound` by `ConsistentReadable`; it is spelled out so that the hash can be
   * stated cheaply.)
   */
  lemma MakeKeepsHash(pos: Position, m: Move)
    requires Sound(pos) && Readable(pos) && m in PseudoLegalList(pos) && pos.z == Hash(pos)
    ensures MakeDefined(pos, m) && Readable(Made(pos, m)) && Made(pos, m).z == Hash(Made(pos, m))
  {
    PseudoLegalOrder(pos);
    MadeValid(pos, m);
    MadeHash(pos, m);
  }

  // ---------------------------------------------------------------- the invariant is kept

  /**
   * A double push of an ordinary move is a quiet push from the second rank (the
   * seventh for Black) over an empty square, whose neighbour one rank on is To.
   */
  lemma DoublePush(pos: Position, m: Move)
    requires Ordinary(pos, m) && EPValid(pos) && m.IsDouble()
    ensures !m.ep && !m.IsCapture() && !m.IsPromotion()
    ensures var mid := EPTarget(m);
      mid != m.from && mid != m.to && !Has(pos.Pieces(White, All), mid) && !Has(pos.Pieces(Black, All), mid) &&
      FlipRank(mid) == m.to &&
      (pos.toMove == White ==> 16 <= mid < 24) && (pos.toMove == Black ==> 40 <= mid < 48)
  {
    assert !m.ep;
    assert !m.IsCapture();
    assert PawnPush(pos, m.from, m.to);
    assert Rank(m.to) != PromoteRank(pos.toMove);
  }

  /** `Make` of a generated move leaves an en passant target only after a double push, over the square it passed. */
  lemma MadeEP(pos: Position, m: Move)
    requires Sound(pos) && m in Generated(pos)
    ensures MakeDefined(pos, m) && EPValid(Made(pos, m)) && EPPlaced(Made(pos, m))
  {
    GeneratedDefined(pos);
    assert MoveDefined(m);
    var r := Made(pos, m);
    if m.IsDouble() {
      GeneratedKinds(pos, m);
      assert Ordinary(pos, m);
      DoublePush(pos, m);
      OrdinaryBoards(pos, m);
      var mid := EPTarget(m);
      assert r.ep == mid && r.Opp() == pos.toMove;
      assert !On(r.b, White, All, mid) && !On(r.b, Black, All, mid);
      assert On(r.b, pos.toMove, Pawn, m.to);
    }
  }

  /**
   * The square an ordinary move takes a piece from holds that opponent's
   * piece, and is never the opponent's king's when the position is legal.
   */
  lemma CaptureNotKing(pos: Position, m: Move)
    requires Sound(pos) && Ordinary(pos, m) && m.IsCapture()
    ensures CaptureSquare(m) < 64 && m.capturePiece.IsReal() && On(pos.b, pos.Opp(), m.capturePiece, CaptureSquare(m))
    ensures CaptureSquare(m) != pos.King(pos.Opp())
  {
    var c, o := pos.toMove, pos.Opp();
    ValidBoardsOf(pos);
    if m.ep {
      assert On(pos.b, o, Pawn, FlipRank(pos.ep));
      OnlyOne(pos.b, o, Pawn, o, King, FlipRank(pos.ep));
    } else {
      CaptureOnValid(pos, m.to);
      if m.to == pos.King(o) {
        assert AttackedBy(pos, m.to, c) by {
          assert pos.Pieces(c, m.piece)[m.from];
        }
        IsAttackedIff(pos, m.to, c);
        assert false;
      }
    }
  }

  /** The fields of `Made` the invariant speaks of. */
  lemma MadeFields(pos: Position, m: Move)
    requires MakeDefined(pos, m)
    ensures var r := Made(pos, m);
      r.b == MakeBoards(pos, m) && r.toMove == pos.Opp() && r.Opp() == pos.toMove &&
      r.ep == (if m.IsDouble() then EPTarget(m) else 0) &&
      r.King(pos.toMove) == (if m.piece == King then m.to else pos.King(pos.toMove)) &&
      r.King(pos.Opp()) == pos.King(pos.Opp())
  {
    assert pos.toMove.Index() != pos.Opp().Index();
  }

  /** Squares an ordinary move does not touch: neither From, nor To, nor the square of a captured piece. */
  predicate Untouched(m: Move, t: Square)
  {
    t != m.from && t != m.to && !(m.IsCapture() && t == CaptureSquare(m))
  }

  /**
   * A piece other than the one that moves and the one taken stays where it
   * is: it cannot stand on From, on the mover's To, or on the captured square.
   */
  lemma Survives(b: Armies, r: Armies, m: Move, c: Color, d: Color, q: Piece, t: Square)
    requires ValidBoards(b) && q.IsReal() && On(b, d, q, t)
    requires forall d: Color, q: Piece, t: Square :: q != None && Untouched(m, t) ==> On(r, d, q, t) == On(b, d, q, t)
    requires m.piece.IsReal() && On(b, c, m.piece, m.from) && !On(b, c, All, m.to)
    requires !m.IsCapture() || m.ep ==> !On(b, c.Opp(), All, m.to)
    requires m.IsCapture() ==> !m.ep ==> CaptureSquare(m) == m.to
    requires m.IsCapture() ==> CaptureSquare(m) < 64 && m.capturePiece.IsReal() && On(b, c.Opp(), m.capturePiece, CaptureSquare(m))
    requires d == c ==> t != m.from || q != m.piece
    requires d != c && m.IsCapture() ==> t != CaptureSquare(m)
    ensures On(r, d, q, t)
  {
    OnlyOne(b, d, q, c, m.piece, t);
    if m.IsCapture() {
      OnlyOne(b, d, q, c.Opp(), m.capturePiece, t);
    }
    assert d == c || d == c.Opp();
    assert Untouched(m, t);
  }

  /** What an ordinary move from a position that keeps the invariant does to the boards, square by square. */
  lemma OrdinaryFacts(pos: Position, m: Move)
    requires Sound(pos) && Ordinary(pos, m)
    ensures var c, o, b, r := pos.toMove, pos.Opp(), pos.b, MakeBoards(pos, m);
      ValidBoards(b) && ValidBoards(r) &&
      m.piece.IsReal() && On(b, c, m.piece, m.from) && !On(b, c, All, m.to) &&
      (!m.IsCapture() || m.ep ==> !On(b, o, All, m.to)) &&
      (m.IsCapture() ==> !m.ep ==> CaptureSquare(m) == m.to) &&
      (m.IsCapture() ==>
        CaptureSquare(m) < 64 && m.capturePiece.IsReal() && On(b, o, m.capturePiece, CaptureSquare(m)) &&
        CaptureSquare(m) != pos.King(o)) &&
      On(b, c, King, pos.King(c)) && On(b, o, King, pos.King(o)) &&
      On(r, c, Landed(m), m.to) &&
      (forall d: Color, q: Piece, t: Square :: q != None && Untouched(m, t) ==> On(r, d, q, t) == On(b, d, q, t))
  {
    ValidBoardsOf(pos);
    OrdinaryBoards(pos, m);
    if m.IsCapture() {
      CaptureNotKing(pos, m);
    }
    CaptureOnValid(pos, m.to);
  }

  /** An ordinary move leaves each king on the square `KingSquare` then records for it. */
  lemma OrdinaryKings(pos: Position, m: Move)
    requires Sound(pos) && Ordinary(pos, m)
    ensures var r := MakeBoards(pos, m);
      On(r, pos.toMove, King, if m.piece == King then m.to else pos.King(pos.toMove)) &&
      On(r, pos.Opp(), King, pos.King(pos.Opp()))
  {
    var c, o := pos.toMove, pos.Opp();
    OrdinaryFacts(pos, m);
    var r := MakeBoards(pos, m);
    hide Sound, Ordinary, MakeBoards;
    if m.piece != King {
      Survives(pos.b, r, m, c, c, King, pos.King(c));
    } else {
      assert Landed(m) == King;
    }
    Survives(pos.b, r, m, c, o, King, pos.King(o));
  }

  /** After an ordinary move each right that is kept still has its rook on the corner. */
  lemma OrdinaryRooks(pos: Position, m: Move)
    requires Sound(pos) && Ordinary(pos, m)
    ensures forall d: Color, side: Side :: pos.Castle(d, side) && !LosesRight(pos, m, d, side) ==>
      On(MakeBoards(pos, m), d, Rook, Corner(d, side))
  {
    var c, o := pos.toMove, pos.Opp();
    OrdinaryFacts(pos, m);
    assert m.ep ==> m.capturePiece == Pawn;
    assert forall d: Color, side: Side :: pos.Castle(d, side) ==> On(pos.b, d, Rook, Corner(d, side));
    var r := MakeBoards(pos, m);
    hide Sound, Ordinary, MakeBoards;
    forall d: Color, side: Side | pos.Castle(d, side) && !LosesRight(pos, m, d, side)
      ensures On(r, d, Rook, Corner(d, side))
    {
      var k := Corner(d, side);
      if d != c && m.IsCapture() && m.ep {
        OnlyOne(pos.b, d, Rook, o, Pawn, k);
      }
      Survives(pos.b, r, m, c, d, Rook, k);
    }
  }

  /** The boards after a generated move hold each king where `Make` records it. */
  lemma GeneratedKings(pos: Position, m: Move)
    requires Sound(pos) && m in Generated(pos)
    ensures MakeDefined(pos, m)
    ensures var r := MakeBoards(pos, m);
      On(r, pos.toMove, King, if m.piece == King then m.to else pos.King(pos.toMove)) &&
      On(r, pos.Opp(), King, pos.King(pos.Opp()))
  {
    GeneratedDefined(pos);
    GeneratedKinds(pos, m);
    if Ordinary(pos, m) {
      OrdinaryKings(pos, m);
    } else {
      var side :| CastleAllowed(pos, side) && m == CastleMove(pos, side);
      CastleBoards(pos, side);
      assert On(pos.b, pos.Opp(), King, pos.King(pos.Opp()));
    }
  }

  /** The boards after a generated move hold a rook on the corner of each right `Make` keeps. */
  lemma GeneratedRooks(pos: Position, m: Move)
    requires Sound(pos) && m in Generated(pos)
    ensures MakeDefined(pos, m)
    ensures forall d: Color, side: Side :: pos.Castle(d, side) && !LosesRight(pos, m, d, side) ==>
      On(MakeBoards(pos, m), d, Rook, Corner(d, side))
  {
    GeneratedDefined(pos);
    GeneratedKinds(pos, m);
    hide Generated, MakeDefined;
    if Ordinary(pos, m) {
      OrdinaryRooks(pos, m);
    } else {
      var side :| CastleAllowed(pos, side) && m == CastleMove(pos, side);
      CastleRooks(pos, side);
    }
  }

  /** The boards after an allowed castling hold the opponent's rooks where they were; the mover keeps no right. */
  lemma CastleRooks(pos: Position, side: Side)
    requires Sound(pos) && CastleAllowed(pos, side)
    ensures var m := CastleMove(pos, side);
      forall d: Color, side': Side :: pos.Castle(d, side') && !LosesRight(pos, m, d, side') ==>
        On(MakeBoards(pos, m), d, Rook, Corner(d, side'))
  {
    var m := CastleMove(pos, side);
    var o := pos.Opp();
    CastleBoards(pos, side);
    assert forall side': Side :: pos.Castle(o, side') ==> On(pos.b, o, Rook, Corner(o, side'));
    assert m.piece == King;
    hide Sound, CastleAllowed, MakeBoards, CastleMove;
    assert forall side': Side :: LosesRight(pos, m, pos.toMove, side');
  }

  /** `Make` of a generated move leaves each king on the square `KingSquare` records for it. */
  lemma MadeKings(pos: Position, m: Move)
    requires Sound(pos) && m in Generated(pos)
    ensures MakeDefined(pos, m) && KingsPlaced(Made(pos, m))
  {
    hide Made, Sound, MakeBoards, Generated;
    GeneratedKings(pos, m);
    MadeFields(pos, m);
    var c, o := pos.toMove, pos.Opp();
    var r := Made(pos, m);
    forall d: Color
      ensures Has(r.Pieces(d, King), r.King(d))
    {
      assert d == c || d == o;
    }
  }

  /** `Make` of a generated move leaves a rook on the corner of each right still held. */
  lemma MadeRooks(pos: Position, m: Move)
    requires Sound(pos) && m in Generated(pos)
    ensures MakeDefined(pos, m) && RooksHome(Made(pos, m))
  {
    GeneratedRooks(pos, m);
    MadeFields(pos, m);
    MadeRights(pos, m);
    var r := Made(pos, m);
    hide Made, Sound, MakeBoards, LosesRight;
  }

  /**
   * A legal move keeps the invariant: from a position that keeps it, `Make`
   * of any move `LegalMoves` returns leads to one that keeps it too.
   */
  lemma SoundMade(pos: Position, m: Move)
    requires Sound(pos) && m in LegalList(pos)
    ensures MakeDefined(pos, m) && Sound(Made(pos, m))
  {
    LegalListIff(pos, m);
    MadeValid(pos, m);
    MadeEP(pos, m);
    MadeKings(pos, m);
    MadeRooks(pos, m);
    LegalMade(pos, m);
  }
}

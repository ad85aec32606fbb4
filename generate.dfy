/**
 * `PseudoLegalMoves` of move.go: the moves of the pawns, knights, bishops,
 * rooks, queens and king appended in that order and then put through the
 * counting sort by capture type.
 */
module Generate {
  import opened Bits
  import opened Chess
  import opened Attacks
  import opened Moves
  import opened MoveGen
  import opened PawnGen
  import opened Castling
  import opened Ordering

  /** The six generators' moves, appended in the order `PseudoLegalMoves` appends them. */
  function Generated(pos: Position): seq<Move>
    requires Consistent(pos)
  {
    PawnMoveList(pos) + PieceMoveList(pos, Knight) + PieceMoveList(pos, Bishop) +
    PieceMoveList(pos, Rook) + PieceMoveList(pos, Queen) + KingMoveList(pos)
  }

  /** What `PseudoLegalMoves(pos)` returns: the generated moves in capture-type order. */
  function PseudoLegalList(pos: Position): seq<Move>
    requires Consistent(pos)
  {
    ByType(Generated(pos))
  }

  /** `PseudoLegalMoves`: append the six generators' moves, then sort them by type. */
  method PseudoLegalMoves(pos: Position) returns (moves: seq<Move>)
    requires Consistent(pos)
    ensures moves == PseudoLegalList(pos)
  {
    var pawns := PawnMoves(pos);
    var knights := PieceMoves(pos, Knight);
    var bishops := PieceMoves(pos, Bishop);
    var rooks := PieceMoves(pos, Rook);
    var queens := PieceMoves(pos, Queen);
    var kings := KingMoves(pos);
    moves := SortByType(pawns + knights + bishops + rooks + queens + kings);
  }

  /** A move is generated exactly when one of the six generators makes it. */
  lemma GeneratedIff(pos: Position, m: Move)
    requires Consistent(pos)
    ensures m in Generated(pos) <==>
      m in PawnMoveList(pos) || m in PieceMoveList(pos, Knight) || m in PieceMoveList(pos, Bishop) ||
      m in PieceMoveList(pos, Rook) || m in PieceMoveList(pos, Queen) || m in KingMoveList(pos)
  {
    var p, n, b, r, q, k := PawnMoveList(pos), PieceMoveList(pos, Knight), PieceMoveList(pos, Bishop),
      PieceMoveList(pos, Rook), PieceMoveList(pos, Queen), KingMoveList(pos);
    InConcat(p, n, m);
    InConcat(p + n, b, m);
    InConcat(p + n + b, r, m);
    InConcat(p + n + b + r, q, m);
    InConcat(p + n + b + r + q, k, m);
  }

  /**
   * The sort is a permutation of the generated moves that puts winning
   * captures first, then equal captures, then losing captures, then
   * non-captures, keeping the generators' order within each type.
   */
  lemma PseudoLegalOrder(pos: Position)
    requires Consistent(pos)
    ensures multiset(PseudoLegalList(pos)) == multiset(Generated(pos))
    ensures forall m :: m in PseudoLegalList(pos) <==> m in Generated(pos)
    ensures forall i, j :: 0 <= i < j < |PseudoLegalList(pos)| ==>
      MoveType(PseudoLegalList(pos)[i]) <= MoveType(PseudoLegalList(pos)[j])
    ensures forall t :: 0 <= t < Types ==> OfType(PseudoLegalList(pos), t) == OfType(Generated(pos), t)
  {
    var ms := Generated(pos);
    assert PseudoLegalList(pos) == ByType(ms);
    hide *;
    ByTypeOrder(ms);
  }

  // ---------------------------------------------------------------- positions the engine can play from

  /** The square a king starts on: e1 for White, e8 for Black. */
  function KingHome(c: Color): Square
  {
    if c == White then 4 else 60
  }

  /**
   * The positions the search and the legality test work on: each All board
   * is the XOR of its piece boards, both kings stand on the board, and a
   * colour that may still castle has its king on its starting square.
   */
  predicate Playable(pos: Position)
  {
    Consistent(pos) && pos.King(White) < 64 && pos.King(Black) < 64 &&
    (forall c: Color, side: Side :: pos.Castle(c, side) ==> pos.King(c) == KingHome(c))
  }

  /** What a playable position guarantees the move generator and the legality test. */
  lemma PlayableFacts(pos: Position)
    requires Playable(pos)
    ensures Consistent(pos) && pos.King(pos.toMove) < 64 && pos.King(pos.Opp()) < 64
  {
    assert pos.Opp() == White || pos.Opp() == Black;
  }

  /** A move of a piece other than a pawn from the generators is one `Make` can apply, castling aside. */
  lemma PieceMoveDefined(pos: Position, p: Piece, m: Move)
    requires Consistent(pos) && NonPawn(p) && m in PieceMoveList(pos, p)
    ensures m.from < 64 && m.to < 64 && m.piece == p && m.capturePiece != All && m.promotePiece == None
  {
    PieceMovesFromIff(pos, p, BitsOf(pos.Pieces(pos.toMove, p)), m);
  }

  /** A pawn step of the mover's pawn is one `Make` can apply. */
  lemma PawnStepDefined(pos: Position, m: Move)
    requires Consistent(pos) && m.from < 64 && PawnStep(pos, m)
    ensures MoveDefined(m)
  {
    assert m.to < 64 by {
      assert Has(Advances(pos, m.from), m.to) || Has(Captures(pos, m.from), m.to);
    }
    assert m.promotePiece in Promotions || m.promotePiece == None;
  }

  /** A pawn move from the generator is one `Make` can apply. */
  lemma PawnMoveDefined(pos: Position, m: Move)
    requires Consistent(pos) && m in PawnMoveList(pos)
    ensures MoveDefined(m)
  {
    var steps := PawnMovesFrom(pos, BitsOf(pos.Pieces(pos.toMove, Pawn)));
    if pos.ep != 0 {
      InConcat(steps, EPMoves(pos, BitsOf(EPSources(pos))), m);
      if m !in steps {
        EPCapturesIff(pos, m);
        return;
      }
    } else {
      assert PawnMoveList(pos) == steps;
    }
    PawnMovesFromIff(pos, BitsOf(pos.Pieces(pos.toMove, Pawn)), m);
    PawnStepDefined(pos, m);
  }

  /** A king move from the generator, castling included, is one `Make` can apply. */
  lemma KingMoveDefined(pos: Position, m: Move)
    requires Playable(pos) && m in KingMoveList(pos)
    ensures MoveDefined(m)
  {
    KingMoveListIff(pos, m);
    if m in PieceMoveList(pos, King) {
      PieceMoveDefined(pos, King, m);
    } else {
      var side :| CastleAllowed(pos, side) && m == CastleMove(pos, side);
      CastleMoveIsCastle(pos, side);
      assert pos.King(pos.toMove) == KingHome(pos.toMove);
    }
  }

  /** Every move of ms is one `Make` can apply. */
  predicate AllDefined(ms: seq<Move>)
  {
    forall m :: m in ms ==> MoveDefined(m)
  }

  /** Appending two lists of applicable moves gives a list of applicable moves. */
  lemma AllDefinedConcat(a: seq<Move>, b: seq<Move>)
    requires AllDefined(a) && AllDefined(b)
    ensures AllDefined(a + b)
  {
    forall m | m in a + b ensures MoveDefined(m) {
      InConcat(a, b, m);
    }
  }

  /** Each generator's moves are ones `Make` can apply. */
  lemma GeneratorsDefined(pos: Position)
    requires Playable(pos)
    ensures AllDefined(PawnMoveList(pos)) && AllDefined(KingMoveList(pos))
    ensures forall p :: NonPawn(p) && p != King ==> AllDefined(PieceMoveList(pos, p))
  {
    forall m | m in PawnMoveList(pos) ensures MoveDefined(m) {
      PawnMoveDefined(pos, m);
    }
    forall m | m in KingMoveList(pos) ensures MoveDefined(m) {
      KingMoveDefined(pos, m);
    }
    forall p, m | NonPawn(p) && p != King && m in PieceMoveList(pos, p) ensures MoveDefined(m) {
      PieceMoveDefined(pos, p, m);
    }
  }

  /** Every generated move is one `Make` can apply to pos. */
  lemma GeneratedDefined(pos: Position)
    requires Playable(pos)
    ensures AllDefined(Generated(pos)) && AllDefined(PseudoLegalList(pos))
  {
    var p, n, b, r, q, k := PawnMoveList(pos), PieceMoveList(pos, Knight), PieceMoveList(pos, Bishop),
      PieceMoveList(pos, Rook), PieceMoveList(pos, Queen), KingMoveList(pos);
    GeneratorsDefined(pos);
    assert NonPawn(Knight) && NonPawn(Bishop) && NonPawn(Rook) && NonPawn(Queen);
    AllDefinedConcat(p, n);
    AllDefinedConcat(p + n, b);
    AllDefinedConcat(p + n + b, r);
    AllDefinedConcat(p + n + b + r, q);
    AllDefinedConcat(p + n + b + r + q, k);
    PseudoLegalOrder(pos);
  }

  /** Every pseudo-legal move is one `Make` can apply to pos. */
  lemma PseudoLegalDefined(pos: Position, m: Move)
    requires Playable(pos) && m in PseudoLegalList(pos)
    ensures MakeDefined(pos, m) && MoveDefined(m)
  {
    GeneratedDefined(pos);
  }

  /** The pseudo-legal moves are all ones `Make` can apply. */
  lemma PseudoLegalAllDefined(pos: Position)
    requires Playable(pos)
    ensures AllDefined(PseudoLegalList(pos))
  {
    GeneratedDefined(pos);
  }

  /** A suffix of a list of applicable moves is one. */
  lemma AllDefinedDrop(ms: seq<Move>, k: nat)
    requires AllDefined(ms) && k <= |ms|
    ensures AllDefined(ms[k..])
  {
    forall m | m in ms[k..] ensures MoveDefined(m) {
      var i :| 0 <= i < |ms[k..]| && ms[k..][i] == m;
      assert ms[k + i] == m;
    }
  }

  /** Each move of a list of applicable moves is one. */
  lemma MakeDefinedAt(pos: Position, ms: seq<Move>, j: nat)
    requires Consistent(pos) && AllDefined(ms) && j < |ms|
    ensures MakeDefined(pos, ms[j]) && MoveDefined(ms[j])
  {
    assert ms[j] in ms;
  }
}

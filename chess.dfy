/**
 * Colours, pieces and positions, and the occupancy lookup `PieceOn`.
 *
 * A position keeps, for each colour c and piece type p, the board `b[c][p]` of
 * the squares holding c's pieces of type p; `b[c][All]` is kept alongside as
 * the squares holding any piece of c.
 */
module Chess {
  import opened Bits

  /** Go's `Color byte`: White = 0, Black = 1. */
  datatype Color = White | Black
  {
    function Index(): (i: nat)
      ensures i < 2
      ensures i == 0 <==> this == White
    {
      if this == White then 0 else 1
    }

    /** `ToMove ^ 1`. */
    function Opp(): (o: Color)
      ensures o != this
    {
      if this == White then Black else White
    }
  }

  /** Go's `Piece byte`: None = 0, Pawn = 1, ..., King = 6, All = 7. */
  datatype Piece = None | Pawn | Knight | Bishop | Rook | Queen | King | All
  {
    function Index(): (i: nat)
      ensures i < 8
      ensures i == 0 <==> this == None
      ensures i == 7 <==> this == All
    {
      match this
      case None => 0
      case Pawn => 1
      case Knight => 2
      case Bishop => 3
      case Rook => 4
      case Queen => 5
      case King => 6
      case All => 7
    }

    /** One of the six kinds of chessmen. */
    predicate IsReal()
    {
      this != None && this != All
    }
  }

  /** The Piece with a given number. */
  function PieceAt(i: nat): (p: Piece)
    requires i < 8
    ensures p.Index() == i
  {
    [None, Pawn, Knight, Bishop, Rook, Queen, King, All][i]
  }

  lemma PieceIndexInjective(p: Piece, q: Piece)
    ensures p.Index() == q.Index() <==> p == q
  {
  }

  /** Go's `Side byte`: QS = 0, KS = 1. */
  datatype Side = QS | KS
  {
    function Index(): (i: nat)
      ensures i < 2
      ensures i == 0 <==> this == QS
    {
      if this == QS then 0 else 1
    }
  }

  /** `[8]Board`, indexed by Piece. */
  type Army = a: seq<Board> | |a| == 8 witness seq(8, _ => seq(64, _ => false))

  /** `[2][8]Board`, indexed by Color then Piece. */
  type Armies = b: seq<Army> | |b| == 2 witness seq(2, _ => seq(8, _ => seq(64, _ => false)))

  /** `[2][2]bool`, indexed by Color then Side. */
  type Rights = r: seq<seq<bool>> | |r| == 2 && |r[0]| == 2 && |r[1]| == 2 witness [[false, false], [false, false]]

  /** `[2]Square`, indexed by Color. */
  type KingSquares = k: seq<Square> | |k| == 2 witness [0, 0]

  /**
   * The game state: `Position` with its fields in source order. The Zobrist
   * bitstring z, a uint64 in Go, is kept as its 64 bits like a Board.
   */
  datatype Position = Position(
    castle: Rights,
    ep: Square,
    toMove: Color,
    halfMove: int,
    fullMove: int,
    kingSquare: KingSquares,
    b: Armies,
    z: Board)
  {
    /** `Position.Opp`: the colour not to move. */
    function Opp(): (c: Color)
      ensures c != toMove && c.Opp() == toMove
    {
      toMove.Opp()
    }

    /** `pos.b[c][p]`. */
    function Pieces(c: Color, p: Piece): Board
    {
      b[c.Index()][p.Index()]
    }

    /** `pos.Castle[c][side]`. */
    function Castle(c: Color, side: Side): bool
    {
      castle[c.Index()][side.Index()]
    }

    /** `pos.KingSquare[c]`. */
    function King(c: Color): Square
    {
      kingSquare[c.Index()]
    }
  }

  /** `pos.Opp()` applied twice gives back the side to move. */
  lemma OppInvolution(pos: Position)
    ensures pos.Opp().Opp() == pos.toMove
    ensures pos.toMove.Opp().Opp() == pos.toMove
  {
  }

  // ---------------------------------------------------------------- occupancy

  /** The first of Pawn, Knight, Bishop, Rook, Queen, King whose board in a holds s, or None. */
  function FirstPiece(a: Army, s: Square): (p: Piece)
    ensures p != All
    ensures p != None ==> Has(a[p.Index()], s)
    ensures forall q: Piece :: q.IsReal() && q.Index() < p.Index() ==> !Has(a[q.Index()], s)
    ensures p == None ==> forall q: Piece :: q.IsReal() ==> !Has(a[q.Index()], s)
  {
    if Has(a[1], s) then Pawn
    else if Has(a[2], s) then Knight
    else if Has(a[3], s) then Bishop
    else if Has(a[4], s) then Rook
    else if Has(a[5], s) then Queen
    else if Has(a[6], s) then King
    else None
  }

  /** The colour `PieceOn` settles on: White if White's All board holds s, else Black. */
  function Owner(pos: Position, s: Square): Color
  {
    if Has(pos.Pieces(White, All), s) then White else Black
  }

  /** `PieceOn` panics when the owner's All board holds s and none of its piece boards does. */
  predicate PieceOnDefined(pos: Position, s: Square)
  {
    var c := Owner(pos, s);
    Has(pos.Pieces(c, All), s) ==> FirstPiece(pos.b[c.Index()], s) != None
  }

  /**
   * `Position.PieceOn`: the colour and kind of the piece on s, looking at White
   * first and then at the piece boards in the order Pawn..King; (White, None) for
   * a square in neither colour's All board.
   */
  function PieceOn(pos: Position, s: Square): (r: (Color, Piece))
    requires PieceOnDefined(pos, s)
    ensures r.1 != All
    ensures r.1 == None <==> !Has(pos.Pieces(White, All), s) && !Has(pos.Pieces(Black, All), s)
    ensures r.1 == None ==> r.0 == White
    ensures r.1 != None ==> Has(pos.Pieces(r.0, All), s) && Has(pos.Pieces(r.0, r.1), s)
    ensures r.1 != None && r.0 == Black ==> !Has(pos.Pieces(White, All), s)
    ensures forall q: Piece :: q.IsReal() && q.Index() < r.1.Index() ==> !Has(pos.Pieces(r.0, q), s)
  {
    if Has(pos.Pieces(White, All), s) then (White, FirstPiece(pos.b[0], s))
    else if Has(pos.Pieces(Black, All), s) then (Black, FirstPiece(pos.b[1], s))
    else (White, None)
  }

  /** `PieceOn` reads the piece boards and nothing else. */
  lemma PieceOnBoards(p: Position, q: Position, s: Square)
    requires p.b == q.b
    ensures PieceOnDefined(p, s) == PieceOnDefined(q, s)
    ensures PieceOnDefined(p, s) ==> PieceOn(p, s) == PieceOn(q, s)
  {
    assert p.Pieces(White, All) == q.Pieces(White, All);
  }

  // ---------------------------------------------------------------- well-formed positions

  /** The number of c's piece boards (Pawn..King) holding square i. */
  function CountAt(a: Army, i: int): (n: nat)
    requires 0 <= i < 64
    ensures n <= 6
  {
    (if a[1][i] then 1 else 0) + (if a[2][i] then 1 else 0) + (if a[3][i] then 1 else 0) +
    (if a[4][i] then 1 else 0) + (if a[5][i] then 1 else 0) + (if a[6][i] then 1 else 0)
  }

  /** At square i at most one piece stands, and each All board is the union of its piece boards. */
  predicate ValidAt(pos: Position, i: int)
    requires 0 <= i < 64
  {
    var w, k := pos.b[0], pos.b[1];
    CountAt(w, i) + CountAt(k, i) <= 1 &&
    (w[7][i] <==> CountAt(w, i) == 1) &&
    (k[7][i] <==> CountAt(k, i) == 1)
  }

  /**
   * The invariant the engine keeps: no square holds two pieces, and `b[c][All]`
   * is the union of c's six piece boards.
   */
  predicate Valid(pos: Position)
  {
    forall i :: 0 <= i < 64 ==> ValidAt(pos, i)
  }

  /** The XOR of the six piece boards of an army at square i. */
  function ParityAt(a: Army, i: int): bool
    requires 0 <= i < 64
  {
    ((((a[1][i] != a[2][i]) != a[3][i]) != a[4][i]) != a[5][i]) != a[6][i]
  }

  /**
   * The weaker invariant every `update` in `Make` keeps whatever the move: each
   * All board is the XOR of its colour's six piece boards.
   */
  predicate Consistent(pos: Position)
  {
    ArmyConsistent(pos.b[0]) && ArmyConsistent(pos.b[1])
  }

  /** The All board of an army is the XOR of its six piece boards. */
  predicate ArmyConsistent(a: Army)
  {
    forall i :: 0 <= i < 64 ==> a[7][i] == ParityAt(a, i)
  }

  /** No square holds two pieces of the army, and its All board is the union of its piece boards. */
  predicate ArmyValid(a: Army)
  {
    forall i :: 0 <= i < 64 ==> CountAt(a, i) <= 1 && (a[7][i] <==> CountAt(a, i) == 1)
  }

  /** A position is valid exactly when both armies are, and no square is in both All boards. */
  lemma ValidArmies(pos: Position)
    ensures Valid(pos) <==>
      ArmyValid(pos.b[0]) && ArmyValid(pos.b[1]) && forall i :: 0 <= i < 64 ==> !(pos.b[0][7][i] && pos.b[1][7][i])
  {
    if Valid(pos) {
      forall i | 0 <= i < 64
        ensures CountAt(pos.b[0], i) <= 1 && (pos.b[0][7][i] <==> CountAt(pos.b[0], i) == 1)
        ensures CountAt(pos.b[1], i) <= 1 && (pos.b[1][7][i] <==> CountAt(pos.b[1], i) == 1)
        ensures !(pos.b[0][7][i] && pos.b[1][7][i])
      {
        assert ValidAt(pos, i);
      }
    }
    if ArmyValid(pos.b[0]) && ArmyValid(pos.b[1]) && forall i :: 0 <= i < 64 ==> !(pos.b[0][7][i] && pos.b[1][7][i]) {
      forall i | 0 <= i < 64
        ensures ValidAt(pos, i)
      {
        assert !(pos.b[0][7][i] && pos.b[1][7][i]);
      }
    }
  }

  lemma ArmyValidConsistent(a: Army)
    requires ArmyValid(a)
    ensures ArmyConsistent(a)
  {
    forall i | 0 <= i < 64
      ensures a[7][i] == ParityAt(a, i)
    {
      assert CountAt(a, i) <= 1;
    }
  }

  lemma ValidConsistent(pos: Position)
    requires Valid(pos)
    ensures Consistent(pos)
  {
    ValidArmies(pos);
    ArmyValidConsistent(pos.b[0]);
    ArmyValidConsistent(pos.b[1]);
  }

  /** In a consistent position `PieceOn` never panics. */
  lemma ConsistentDefined(pos: Position, s: Square)
    requires Consistent(pos)
    ensures PieceOnDefined(pos, s)
  {
    if s < 64 {
      var c := Owner(pos, s);
      assert ArmyConsistent(pos.b[c.Index()]);
      assert pos.b[c.Index()][7][s] == ParityAt(pos.b[c.Index()], s);
    }
  }

  /** In a valid position `PieceOn` finds the one piece standing on a square. */
  lemma PieceOnValid(pos: Position, c: Color, p: Piece, s: Square)
    requires Valid(pos) && p.IsReal() && Has(pos.Pieces(c, p), s)
    ensures PieceOnDefined(pos, s) && PieceOn(pos, s) == (c, p)
  {
    assert ValidAt(pos, s);
  }

  /** In a valid position an empty square is in no piece board. */
  lemma PieceOnValidEmpty(pos: Position, s: Square)
    requires Valid(pos) && s < 64
    requires PieceOnDefined(pos, s) && PieceOn(pos, s).1 == None
    ensures forall c: Color, q: Piece :: q.IsReal() ==> !Has(pos.Pieces(c, q), s)
  {
    assert ValidAt(pos, s);
  }

  // ---------------------------------------------------------------- castling masks

  /** `CastleEmptySquares[c][side]`: b1 c1 d1 / f1 g1 on the home rank of c. */
  function CastleEmptySquares(c: Color, side: Side): (m: Board)
    ensures forall s: Square :: Has(m, s) <==> s in CastleEmptyList(c, side)
  {
    var rank := RankMask(if c == White then 0 else 7);
    if side == QS then And(Or(Or(FileMask(1), FileMask(2)), FileMask(3)), rank)
    else And(Or(FileMask(5), FileMask(6)), rank)
  }

  /** `CastleKingSquares[c][side]`: c1 d1 e1 / e1 f1 g1 on the home rank of c. */
  function CastleKingSquares(c: Color, side: Side): (m: Board)
    ensures forall s: Square :: Has(m, s) <==> s in CastleKingList(c, side)
  {
    var rank := RankMask(if c == White then 0 else 7);
    if side == QS then And(Or(Or(FileMask(2), FileMask(3)), FileMask(4)), rank)
    else And(Or(Or(FileMask(4), FileMask(5)), FileMask(6)), rank)
  }

  /** The squares between king and rook, by name. */
  function CastleEmptyList(c: Color, side: Side): seq<Square>
  {
    match (c, side)
    case (White, QS) => [1, 2, 3]
    case (White, KS) => [5, 6]
    case (Black, QS) => [57, 58, 59]
    case (Black, KS) => [61, 62]
  }

  /** The squares the king stands on or crosses, by name. */
  function CastleKingList(c: Color, side: Side): seq<Square>
  {
    match (c, side)
    case (White, QS) => [2, 3, 4]
    case (White, KS) => [4, 5, 6]
    case (Black, QS) => [58, 59, 60]
    case (Black, KS) => [60, 61, 62]
  }
}

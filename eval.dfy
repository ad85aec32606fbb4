/**
 * The static evaluation of eval.go: material counted in centipawns, with a
 * pawn worth 100, a knight 320, a bishop 333, a rook 500 and a queen 900;
 * kings are not counted. `Eval` is White's material minus Black's, and
 * `evalMult` turns it into the score of the side to move.
 */
module Evaluation {
  import opened Bits
  import opened Chess

  const PawnEval := 100
  const KnightEval := 320
  const BishopEval := 333
  const RookEval := 500
  const QueenEval := 900

  /** The five piece types `Eval` counts. */
  predicate Counted(p: Piece)
  {
    p == Pawn || p == Knight || p == Bishop || p == Rook || p == Queen
  }

  /** The value `Eval` gives one piece of type p; a type it does not count is worth nothing. */
  function PieceEval(p: Piece): (v: nat)
    ensures v > 0 <==> Counted(p)
    ensures v <= QueenEval
  {
    match p
    case Pawn => PawnEval
    case Knight => KnightEval
    case Bishop => BishopEval
    case Rook => RookEval
    case Queen => QueenEval
    case _ => 0
  }

  /** The material of one colour's boards: the number of pieces of each counted type times its value. */
  function ArmyMaterial(a: Army): (m: nat)
  {
    PopCount(a[Pawn.Index()]) * PawnEval +
    PopCount(a[Knight.Index()]) * KnightEval +
    PopCount(a[Bishop.Index()]) * BishopEval +
    PopCount(a[Rook.Index()]) * RookEval +
    PopCount(a[Queen.Index()]) * QueenEval
  }

  /** `whiteMaterial` / `blackMaterial`. */
  function Material(pos: Position, c: Color): (m: nat)
  {
    ArmyMaterial(pos.b[c.Index()])
  }

  /** `evalMult`: 1 for White and -1 for Black. */
  function EvalMult(c: Color): (k: int)
    ensures k * k == 1
    ensures k == 1 <==> c == White
  {
    if c == White then 1 else -1
  }

  /** `Eval`: the evaluation in centipawns from White's point of view. */
  function Eval(pos: Position): (e: int)
  {
    Material(pos, White) - Material(pos, Black)
  }

  /** The multipliers of the two colours are opposite. */
  lemma EvalMultOpp(c: Color)
    ensures EvalMult(c.Opp()) == -EvalMult(c)
  {
  }

  /** `Eval(pos) * evalMult(ToMove)`, the leaf score of the search, is the mover's material minus the other side's. */
  lemma RelativeEval(pos: Position)
    ensures Eval(pos) * EvalMult(pos.toMove) == Material(pos, pos.toMove) - Material(pos, pos.Opp())
  {
    if pos.toMove == White {
      assert pos.Opp() == Black;
    } else {
      assert pos.Opp() == White;
    }
  }

  /** A colour has no material exactly when it has no piece of a counted type. */
  lemma MaterialZero(pos: Position, c: Color)
    ensures Material(pos, c) == 0 <==> forall p :: Counted(p) ==> pos.Pieces(c, p) == Empty()
  {
    PopCountZero(pos.Pieces(c, Pawn));
    PopCountZero(pos.Pieces(c, Knight));
    PopCountZero(pos.Pieces(c, Bishop));
    PopCountZero(pos.Pieces(c, Rook));
    PopCountZero(pos.Pieces(c, Queen));
  }

  /** Positions where the colours hold the same number of each counted piece type evaluate to 0. */
  lemma EvalBalanced(pos: Position)
    requires forall p :: Counted(p) ==> PopCount(pos.Pieces(White, p)) == PopCount(pos.Pieces(Black, p))
    ensures Eval(pos) == 0
  {
    assert Counted(Pawn) && Counted(Knight) && Counted(Bishop) && Counted(Rook) && Counted(Queen);
    var w, k := pos.b[White.Index()], pos.b[Black.Index()];
    assert PopCount(w[Pawn.Index()]) == PopCount(k[Pawn.Index()]);
    assert PopCount(w[Knight.Index()]) == PopCount(k[Knight.Index()]);
    assert PopCount(w[Bishop.Index()]) == PopCount(k[Bishop.Index()]);
    assert PopCount(w[Rook.Index()]) == PopCount(k[Rook.Index()]);
    assert PopCount(w[Queen.Index()]) == PopCount(k[Queen.Index()]);
    hide PopCount;
    assert ArmyMaterial(w) == ArmyMaterial(k);
  }

  /** Lone kings: with no counted piece on either side the evaluation is 0. */
  lemma EvalLoneKings(pos: Position)
    requires forall c: Color, p :: Counted(p) ==> pos.Pieces(c, p) == Empty()
    ensures Eval(pos) == 0
  {
    MaterialZero(pos, White);
    MaterialZero(pos, Black);
  }

  /** King and bishop against king and bishop evaluates to 0. */
  lemma EvalKingBishopEach(pos: Position, w: Square, k: Square)
    requires w < 64 && k < 64
    requires pos.Pieces(White, Bishop) == SquareBoard(w) && pos.Pieces(Black, Bishop) == SquareBoard(k)
    requires forall c: Color, p :: Counted(p) && p != Bishop ==> pos.Pieces(c, p) == Empty()
    ensures Eval(pos) == 0
  {
    PopCountSquare(w);
    PopCountSquare(k);
    PopCountEmpty();
    EvalBalanced(pos);
  }

  /** The position with the colours of all pieces swapped. */
  function SwapColors(pos: Position): (r: Position)
    ensures r.b[0] == pos.b[1] && r.b[1] == pos.b[0]
  {
    pos.(b := [pos.b[1], pos.b[0]])
  }

  /** Swapping the colours of all pieces negates the evaluation. */
  lemma EvalSwap(pos: Position)
    ensures Eval(SwapColors(pos)) == -Eval(pos)
  {
    hide ArmyMaterial;
    assert SwapColors(pos).b[0] == pos.b[1] && SwapColors(pos).b[1] == pos.b[0];
  }

  /** Swapping the colours of all pieces and the side to move leaves the mover's score unchanged. */
  lemma RelativeEvalSwap(pos: Position)
    ensures var r := SwapColors(pos).(toMove := pos.Opp());
      Eval(r) * EvalMult(r.toMove) == Eval(pos) * EvalMult(pos.toMove)
  {
    hide ArmyMaterial;
    EvalSwap(pos);
    if pos.toMove == White {
      assert pos.Opp() == Black;
    } else {
      assert pos.Opp() == White;
    }
  }

  /** One more piece of a counted type raises an army's material by its value. */
  lemma ArmyMaterialAdd(a: Army, p: Piece, s: Square)
    requires Counted(p) && s < 64 && !a[p.Index()][s]
    ensures ArmyMaterial(a[p.Index() := a[p.Index()][s := true]]) == ArmyMaterial(a) + PieceEval(p)
  {
    PopCountSet(a[p.Index()], s);
  }

  /** The position with one more piece of type p for c on s. */
  function AddPiece(pos: Position, c: Color, p: Piece, s: Square): (r: Position)
    requires s < 64
    ensures r.b[c.Index()] == pos.b[c.Index()][p.Index() := pos.Pieces(c, p)[s := true]]
    ensures r.b[c.Opp().Index()] == pos.b[c.Opp().Index()]
  {
    pos.(b := pos.b[c.Index() := pos.b[c.Index()][p.Index() := pos.Pieces(c, p)[s := true]]])
  }

  /** Placing one more piece of a counted type moves the evaluation by its value towards its owner. */
  lemma EvalAdd(pos: Position, c: Color, p: Piece, s: Square)
    requires Counted(p) && s < 64 && !Has(pos.Pieces(c, p), s)
    ensures Eval(AddPiece(pos, c, p, s)) == if c == White then Eval(pos) + PieceEval(p) else Eval(pos) - PieceEval(p)
  {
    hide PopCount;
    ArmyMaterialAdd(pos.b[c.Index()], p, s);
    assert Material(AddPiece(pos, c, p, s), c.Opp()) == Material(pos, c.Opp());
  }
}

/**
 * Zobrist hashing (zobrist.go): the key tables, the from-scratch hash
 * `Position.Zobrist`, and the same hash read off the piece boards directly.
 */
module Zobrist {
  import opened Bits
  import opened Chess
  import opened Attacks

  /** Go's `Zobrist uint64`, as its 64 bits; `z ^ x` is `Xor(z, x)`. */
  type Key = Board

  type PieceKeyTable = t: seq<Key> | |t| == 768 witness seq(768, _ => Empty())
  type ColorKeyTable = t: seq<Key> | |t| == 2 witness seq(2, _ => Empty())
  type FileKeyTable = t: seq<Key> | |t| == 8 witness seq(8, _ => Empty())

  /*
   * The random bitstrings. Their values play no part in anything proved here, so
   * the constants are left unspecified: every statement below holds for any table.
   */

  /** `pieceZobrist[c][p][sq]` for p in Pawn..King, stored at `(6 * c + p - 1) * 64 + sq`. */
  const PieceKeys: PieceKeyTable
  /** `qsCastleZobrist[c]`. */
  const QSCastleKeys: ColorKeyTable
  /** `ksCastleZobrist[c]`. */
  const KSCastleKeys: ColorKeyTable
  /** `canEPCaptureZobrist[file]`. */
  const EPCaptureKeys: FileKeyTable
  /** `blackToMoveZobrist`. */
  const BlackToMoveKey: Key

  /** `pieceZobrist[c][p][sq]`; the row of None is all zero, and Go's table has no row for All. */
  function PieceKey(c: Color, p: Piece, s: Square): (k: Key)
    requires p != All && s < 64
    ensures p == None ==> k == Empty()
  {
    if p == None then Empty() else PieceKeys[(c.Index() * 6 + p.Index() - 1) * 64 + s]
  }

  /** `castleZobrist[c][side]`: `qsCastleZobrist[c]` or `ksCastleZobrist[c]`. */
  function CastleKey(c: Color, side: Side): Key
  {
    if side == QS then QSCastleKeys[c.Index()] else KSCastleKeys[c.Index()]
  }

  /** `z.xor(x)` undone: applying the same key twice restores the hash. */
  lemma XorTwice(z: Key, x: Key)
    ensures Xor(Xor(z, x), x) == z
    ensures Xor(z, Empty()) == z
  {
    assert Xor(Xor(z, x), x) == z;
    assert Xor(z, Empty()) == z;
  }

  // ---------------------------------------------------------------- the hash as zobrist.go computes it

  /** `PieceOn` can be asked about every square without a panic. */
  predicate Readable(pos: Position)
  {
    forall s: Square :: PieceOnDefined(pos, s)
  }

  lemma ConsistentReadable(pos: Position)
    requires Consistent(pos)
    ensures Readable(pos)
  {
    forall s: Square
      ensures PieceOnDefined(pos, s)
    {
      ConsistentDefined(pos, s);
    }
  }

  lemma ReadableEPDefined(pos: Position)
    requires Readable(pos)
    ensures EPDefined(pos)
  {
  }

  /** The key `Zobrist` adds for square s: that of the piece `PieceOn` reports, if any. */
  function SquareKey(pos: Position, s: Square): Key
    requires s < 64 && PieceOnDefined(pos, s)
  {
    var (c, p) := PieceOn(pos, s);
    if p != None then PieceKey(c, p, s) else Empty()
  }

  /** The XOR of the keys of the squares below n. */
  function SquaresHash(pos: Position, n: nat): Key
    requires n <= 64 && Readable(pos)
  {
    if n == 0 then Empty() else Xor(SquaresHash(pos, n - 1), SquareKey(pos, n - 1))
  }

  /** The XOR of the keys of the rights to castle to `side` held by the colours below n. */
  function RightsHash(castle: Rights, side: Side, n: nat): Key
    requires n <= 2
  {
    if n == 0 then Empty()
    else Xor(RightsHash(castle, side, n - 1), RightKey(castle, if n == 1 then White else Black, side))
  }

  /** The key a position holds for one castling right. */
  function RightKey(castle: Rights, c: Color, side: Side): Key
  {
    if castle[c.Index()][side.Index()] then CastleKey(c, side) else Empty()
  }

  /** Both colours' rights to castle to one side, White's first. */
  lemma RightsHashBoth(castle: Rights, side: Side)
    ensures RightsHash(castle, side, 2) == Xor(Xor(Empty(), RightKey(castle, White, side)), RightKey(castle, Black, side))
  {
    assert RightsHash(castle, side, 1) == Xor(Empty(), RightKey(castle, White, side));
  }

  /** The keys of all castling rights held. */
  function CastleHash(castle: Rights): Key
  {
    Xor(RightsHash(castle, QS, 2), RightsHash(castle, KS, 2))
  }

  /** The keys of the files of the pawns that can capture en passant. */
  function EPHash(pos: Position): Key
    requires EPDefined(pos)
  {
    var (a, b) := EligibleEPCapturers(pos);
    if a == 0 then Empty()
    else if b == 0 then EPCaptureKeys[a % 8]
    else Xor(EPCaptureKeys[a % 8], EPCaptureKeys[b % 8])
  }

  /** The key of the side to move. */
  function SideHash(toMove: Color): Key
  {
    if toMove == Black then BlackToMoveKey else Empty()
  }

  /** What `Position.Zobrist` computes. */
  function Hash(pos: Position): Key
    requires Readable(pos)
  {
    ReadableEPDefined(pos);
    Xor(Xor(Xor(SquaresHash(pos, 64), CastleHash(pos.castle)), EPHash(pos)), SideHash(pos.toMove))
  }

  /**
   * `Position.Zobrist`: one loop over the squares, one over the queenside rights,
   * one over the kingside rights, then the en passant files and the side to move.
   */
  method ZobristOf(pos: Position) returns (z: Key)
    requires Readable(pos)
    ensures z == Hash(pos)
  {
    z := Empty();
    var sq := 0;
    while sq < 64
      invariant 0 <= sq <= 64
      invariant z == SquaresHash(pos, sq)
    {
      var (c, p) := PieceOn(pos, sq);
      if p != None {
        z := Xor(z, PieceKey(c, p, sq));
      }
      sq := sq + 1;
    }
    ghost var squares := z;
    var i := 0;
    while i < 2
      invariant 0 <= i <= 2
      invariant z == Xor(squares, RightsHash(pos.castle, QS, i))
    {
      var c := if i == 0 then White else Black;
      XorLaws(squares, RightsHash(pos.castle, QS, i), CastleKey(c, QS));
      XorLaws(RightsHash(pos.castle, QS, i), Empty(), Empty());
      if pos.Castle(c, QS) {
        z := Xor(z, QSCastleKeys[i]);
      }
      i := i + 1;
    }
    ghost var qs := RightsHash(pos.castle, QS, 2);
    i := 0;
    while i < 2
      invariant 0 <= i <= 2
      invariant z == Xor(squares, Xor(qs, RightsHash(pos.castle, KS, i)))
    {
      var c := if i == 0 then White else Black;
      XorLaws(qs, RightsHash(pos.castle, KS, i), CastleKey(c, KS));
      XorLaws(squares, Xor(qs, RightsHash(pos.castle, KS, i)), CastleKey(c, KS));
      XorLaws(RightsHash(pos.castle, KS, i), Empty(), Empty());
      if pos.Castle(c, KS) {
        z := Xor(z, KSCastleKeys[i]);
      }
      i := i + 1;
    }
    XorLaws(squares, qs, RightsHash(pos.castle, KS, 2));
    assert z == Xor(squares, CastleHash(pos.castle));
    ReadableEPDefined(pos);
    var (a, b) := EligibleEPCapturers(pos);
    ghost var before := z;
    if a != 0 {
      z := Xor(z, EPCaptureKeys[a % 8]);
      if b != 0 {
        XorLaws(before, EPCaptureKeys[a % 8], EPCaptureKeys[b % 8]);
        z := Xor(z, EPCaptureKeys[b % 8]);
      }
    } else {
      XorLaws(z, Empty(), Empty());
    }
    assert z == Xor(before, EPHash(pos));
    if pos.toMove == Black {
      z := Xor(z, BlackToMoveKey);
    } else {
      XorLaws(z, Empty(), Empty());
    }
  }

  // ---------------------------------------------------------------- the hash read off the piece boards

  /** The key of square s in c's board of kind p, if that board of the army a holds s. */
  function KeyIf(a: Army, c: Color, p: Piece, s: Square): Key
  {
    if p.IsReal() && Has(a[p.Index()], s) then PieceKey(c, p, s) else Empty()
  }

  /** The keys of c's pieces standing on square s, one for each of c's piece boards that holds it. */
  function ArmyKeysAt(a: Army, c: Color, s: Square): Key
  {
    Xor(Xor(Xor(Xor(Xor(KeyIf(a, c, Pawn, s), KeyIf(a, c, Knight, s)), KeyIf(a, c, Bishop, s)),
      KeyIf(a, c, Rook, s)), KeyIf(a, c, Queen, s)), KeyIf(a, c, King, s))
  }

  /** The keys of the pieces of both colours standing on square s. */
  function KeysAt(b: Armies, s: Square): Key
  {
    Xor(ArmyKeysAt(b[0], White, s), ArmyKeysAt(b[1], Black, s))
  }

  /** The keys of every piece of every piece board below square n. */
  function PlacementHash(b: Armies, n: nat): Key
    requires n <= 64
  {
    if n == 0 then Empty() else Xor(PlacementHash(b, n - 1), KeysAt(b, n - 1))
  }

  /** In a valid position the one piece on a square, if any, is the piece `PieceOn` reports. */
  lemma KeysAtValid(pos: Position, s: Square)
    requires Valid(pos) && s < 64
    ensures PieceOnDefined(pos, s)
    ensures KeysAt(pos.b, s) == SquareKey(pos, s)
  {
    assert ValidAt(pos, s);
    ValidConsistent(pos);
    ConsistentDefined(pos, s);
  }

  /** In a valid position `Position.Zobrist` hashes exactly the pieces of the piece boards. */
  lemma {:induction false} SquaresHashValid(pos: Position, n: nat)
    requires Valid(pos) && n <= 64
    ensures Readable(pos)
    ensures SquaresHash(pos, n) == PlacementHash(pos.b, n)
  {
    ValidConsistent(pos);
    ConsistentReadable(pos);
    if n > 0 {
      SquaresHashValid(pos, n - 1);
      KeysAtValid(pos, n - 1);
    }
  }

  /**
   * The hash of a position with the piece boards read directly; on valid positions
   * it is `Hash`, and `Make` keeps the difference between it and `pos.z`.
   */
  function BoardsHash(pos: Position): Key
    requires EPDefined(pos)
  {
    Xor(Xor(Xor(PlacementHash(pos.b, 64), CastleHash(pos.castle)), EPHash(pos)), SideHash(pos.toMove))
  }

  lemma HashValid(pos: Position)
    requires Valid(pos)
    ensures Readable(pos) && EPDefined(pos)
    ensures Hash(pos) == BoardsHash(pos)
  {
    SquaresHashValid(pos, 64);
    ReadableEPDefined(pos);
  }

  /** Only the side to move differs: the hashes differ by `blackToMoveZobrist` when no en passant is pending. */
  lemma SideToMoveHash(pos: Position)
    requires Readable(pos) && pos.ep == 0
    ensures Readable(pos.(toMove := Black)) && Readable(pos.(toMove := White))
    ensures Hash(pos.(toMove := Black)) == Xor(Hash(pos.(toMove := White)), BlackToMoveKey)
  {
    var w, k := pos.(toMove := White), pos.(toMove := Black);
    forall s: Square
      ensures PieceOnDefined(w, s) && PieceOnDefined(k, s)
    {
      PieceOnBoards(pos, w, s);
      PieceOnBoards(pos, k, s);
    }
    SquaresHashSameBoards(w, k, 64);
    ReadableEPDefined(w);
    ReadableEPDefined(k);
    assert EPHash(w) == Empty() && EPHash(k) == Empty();
    assert SideHash(w.toMove) == Empty() && SideHash(k.toMove) == BlackToMoveKey;
    ghost var rest := Xor(Xor(SquaresHash(w, 64), CastleHash(w.castle)), Empty());
    assert Hash(w) == Xor(rest, Empty());
    assert Hash(k) == Xor(rest, BlackToMoveKey);
    XorLaws(rest, Empty(), Empty());
  }

  /** Positions with the same piece boards agree on the squares' keys. */
  lemma {:induction false} SquaresHashSameBoards(p: Position, q: Position, n: nat)
    requires Readable(p) && Readable(q) && p.b == q.b && n <= 64
    ensures SquaresHash(p, n) == SquaresHash(q, n)
  {
    if n > 0 {
      SquaresHashSameBoards(p, q, n - 1);
      PieceOnBoards(p, q, n - 1);
    }
  }

  /** An en passant target that no pawn of the mover can capture on adds nothing to the hash. */
  lemma NoCapturerNoKey(pos: Position)
    requires EPDefined(pos) && EligibleEPCapturers(pos).0 == 0
    ensures EPHash(pos) == Empty()
  {
  }
}
/**
 * Moves and the transition function `Make` (move.go): a move is applied to a
 * copy of the position field by field, toggling piece boards through the
 * `update` closure and keeping the Zobrist bitstring up to date incrementally.
 */
module Moves {
  import opened Bits
  import opened Chess
  import opened Attacks
  import opened Zobrist

  /**
   * `Move`: From and To, the moving Piece, the captured Piece or None, whether
   * the capture is en passant, and the Piece promoted to or None.
   */
  datatype Move = Move(from: Square, to: Square, piece: Piece, capturePiece: Piece, ep: bool, promotePiece: Piece)
  {
    predicate IsCapture()
    {
      capturePiece != None
    }

    predicate IsPromotion()
    {
      promotePiece != None
    }

    /** An initial pawn push: rank 2 to rank 4, or rank 7 to rank 5 (ranks counted from 0 in the code). */
    predicate IsDouble()
    {
      piece == Pawn && ((from / 8 == 1 && to / 8 == 3) || (from / 8 == 6 && to / 8 == 4))
    }

    /**
     * `IsCastle`: a king move with `From - To == 2` or `To - From == 2` in byte
     * arithmetic; the side is QS when the move is not a castling.
     */
    function IsCastle(): (r: (Side, bool))
      ensures !r.1 ==> r.0 == QS
      ensures from < 64 && to < 64 ==> (r == (QS, true) <==> piece == King && from == to + 2)
      ensures from < 64 && to < 64 ==> (r == (KS, true) <==> piece == King && to == from + 2)
    {
      if piece != King then (QS, false)
      else if (from - to) % 256 == 2 then (QS, true)
      else if (to - from) % 256 == 2 then (KS, true)
      else (QS, false)
    }
  }

  // ---------------------------------------------------------------- update

  /** `s.Board()` XORed into an army's board of kind p and into its All board. */
  function ArmyToggle(a: Army, p: Piece, s: Square): (r: Army)
    requires p.IsReal() && s < 64
    ensures forall i, t :: 0 <= i < 8 && 0 <= t < 64 ==> r[i][t] == (a[i][t] != (t == s && (i == p.Index() || i == 7)))
  {
    var sb := SquareBoard(s);
    assert forall t :: 0 <= t < 64 ==> (sb[t] <==> t == s) by {
      forall t | 0 <= t < 64
        ensures sb[t] <==> t == s
      {
        assert Has(sb, t) <==> t == s;
      }
    }
    a[p.Index() := Xor(a[p.Index()], sb)][7 := Xor(a[7], sb)]
  }

  /** Taking a piece off its square keeps an army valid and empties that square. */
  lemma ArmyRemove(a: Army, p: Piece, s: Square)
    requires ArmyValid(a) && p.IsReal() && s < 64 && a[p.Index()][s]
    ensures ArmyValid(ArmyToggle(a, p, s))
    ensures forall i, t :: 1 <= i < 8 && 0 <= t < 64 ==> ArmyToggle(a, p, s)[i][t] == (a[i][t] && t != s)
  {
    var r := ArmyToggle(a, p, s);
    assert CountAt(a, s) == 1;
    forall i | 0 <= i < 64
      ensures CountAt(r, i) <= 1 && (r[7][i] <==> CountAt(r, i) == 1)
    {
      if i == s {
        assert CountAt(r, i) == 0;
      } else {
        assert CountAt(r, i) == CountAt(a, i);
      }
    }
  }

  /** Putting a piece on a square the army does not hold keeps it valid and fills that square. */
  lemma ArmyPlace(a: Army, p: Piece, s: Square)
    requires ArmyValid(a) && p.IsReal() && s < 64 && !a[7][s]
    ensures ArmyValid(ArmyToggle(a, p, s))
    ensures forall i, t :: 1 <= i < 7 && 0 <= t < 64 ==> ArmyToggle(a, p, s)[i][t] == (a[i][t] || (t == s && i == p.Index()))
    ensures forall t :: 0 <= t < 64 ==> ArmyToggle(a, p, s)[7][t] == (a[7][t] || t == s)
  {
    var r := ArmyToggle(a, p, s);
    assert CountAt(a, s) == 0;
    forall i | 0 <= i < 64
      ensures CountAt(r, i) <= 1 && (r[7][i] <==> CountAt(r, i) == 1)
    {
      if i == s {
        assert CountAt(r, i) == 1;
      } else {
        assert CountAt(r, i) == CountAt(a, i);
      }
    }
  }

  /** Toggling a square in a piece board and in the All board keeps the All board their XOR. */
  lemma ArmyToggleConsistent(a: Army, p: Piece, s: Square)
    requires ArmyConsistent(a) && p.IsReal() && s < 64
    ensures ArmyConsistent(ArmyToggle(a, p, s))
  {
    var r := ArmyToggle(a, p, s);
    forall i | 0 <= i < 64
      ensures r[7][i] == ParityAt(r, i)
    {
    }
  }

  /** The piece boards with c's board of kind p and c's All board toggled at s. */
  function ToggleIn(b: Armies, c: Color, p: Piece, s: Square): Armies
    requires p.IsReal() && s < 64
  {
    b[c.Index() := ArmyToggle(b[c.Index()], p, s)]
  }

  /** The `update` closure of `Make`: a piece of c of kind p moves onto or off square s. */
  function Update(pos: Position, c: Color, p: Piece, s: Square): Position
    requires p.IsReal() && s < 64
  {
    pos.(b := ToggleIn(pos.b, c, p, s), z := Xor(pos.z, PieceKey(c, p, s)))
  }

  /** `Castle[c][side] = false`, taking its key out of the hash if the right was held. */
  function DropRight(pos: Position, c: Color, side: Side): (r: Position)
    ensures r == pos.(castle := r.castle, z := r.z)
    ensures forall c': Color, side': Side :: r.Castle(c', side') == (pos.Castle(c', side') && (c', side') != (c, side))
  {
    var z := if pos.Castle(c, side) then Xor(pos.z, CastleKey(c, side)) else pos.z;
    pos.(castle := pos.castle[c.Index() := pos.castle[c.Index()][side.Index() := false]], z := z)
  }

  // ---------------------------------------------------------------- the hash kept by Make

  /**
   * What separates `pos.z` from the hash of the piece boards, the castling rights
   * and the side to move; every step of `Make` except the en passant keys keeps it.
   */
  ghost function Residue(pos: Position): Key
  {
    Xor(pos.z, Xor(Xor(PlacementHash(pos.b, 64), CastleHash(pos.castle)), SideHash(pos.toMove)))
  }

  /** The residue reads only the boards, the rights, the side to move and `z`. */
  lemma ResidueFields(p: Position, q: Position)
    requires p.b == q.b && p.castle == q.castle && p.toMove == q.toMove && p.z == q.z
    ensures Residue(p) == Residue(q)
  {
  }

  /** One key of an army: it changes only for the toggled board and square, by that piece's key. */
  lemma KeyIfToggle(a: Army, c: Color, p: Piece, s: Square, q: Piece, t: Square)
    requires p.IsReal() && s < 64
    ensures KeyIf(ArmyToggle(a, p, s), c, q, t) ==
      if q == p && t == s then Xor(KeyIf(a, c, q, t), PieceKey(c, p, s)) else KeyIf(a, c, q, t)
  {
    if q == p && t == s {
      XorLaws(PieceKey(c, p, s), PieceKey(c, p, s), Empty());
      XorLaws(Empty(), PieceKey(c, p, s), Empty());
    } else if q.IsReal() && t < 64 {
      PieceIndexInjective(p, q);
    }
  }

  /** The keys of an army at one square change only at the toggled square, by the toggled piece's key. */
  lemma ArmyKeysToggle(a: Army, c: Color, p: Piece, s: Square, t: Square)
    requires p.IsReal() && s < 64
    ensures ArmyKeysAt(ArmyToggle(a, p, s), c, t) ==
      if t == s then Xor(ArmyKeysAt(a, c, t), PieceKey(c, p, s)) else ArmyKeysAt(a, c, t)
  {
    var a' := ArmyToggle(a, p, s);
    forall q: Piece
      ensures KeyIf(a', c, q, t) == if q == p && t == s then Xor(KeyIf(a, c, q, t), PieceKey(c, p, s)) else KeyIf(a, c, q, t)
    {
      KeyIfToggle(a, c, p, s, q, t);
    }
    if t == s {
      Xor6Delta(KeyIf(a, c, Pawn, t), KeyIf(a, c, Knight, t), KeyIf(a, c, Bishop, t),
        KeyIf(a, c, Rook, t), KeyIf(a, c, Queen, t), KeyIf(a, c, King, t),
        KeyIf(a', c, Pawn, t), KeyIf(a', c, Knight, t), KeyIf(a', c, Bishop, t),
        KeyIf(a', c, Rook, t), KeyIf(a', c, Queen, t), KeyIf(a', c, King, t), PieceKey(c, p, s), p.Index());
    }
  }

  /** If one of six XORed boards changes by d and the others stay, their XOR changes by d. */
  lemma Xor6Delta(k1: Key, k2: Key, k3: Key, k4: Key, k5: Key, k6: Key,
                  l1: Key, l2: Key, l3: Key, l4: Key, l5: Key, l6: Key, d: Key, j: nat)
    requires 1 <= j <= 6
    requires l1 == if j == 1 then Xor(k1, d) else k1
    requires l2 == if j == 2 then Xor(k2, d) else k2
    requires l3 == if j == 3 then Xor(k3, d) else k3
    requires l4 == if j == 4 then Xor(k4, d) else k4
    requires l5 == if j == 5 then Xor(k5, d) else k5
    requires l6 == if j == 6 then Xor(k6, d) else k6
    ensures Xor(Xor(Xor(Xor(Xor(l1, l2), l3), l4), l5), l6) == Xor(Xor(Xor(Xor(Xor(Xor(k1, k2), k3), k4), k5), k6), d)
  {
    var lhs := Xor(Xor(Xor(Xor(Xor(l1, l2), l3), l4), l5), l6);
    var rhs := Xor(Xor(Xor(Xor(Xor(Xor(k1, k2), k3), k4), k5), k6), d);
    forall i | 0 <= i < 64
      ensures lhs[i] == rhs[i]
    {
    }
  }

  /** The keys at a square change only at the toggled square, by the toggled piece's key. */
  lemma KeysAtToggle(b: Armies, c: Color, p: Piece, s: Square, t: Square)
    requires p.IsReal() && s < 64
    ensures KeysAt(ToggleIn(b, c, p, s), t) == if t == s then Xor(KeysAt(b, t), PieceKey(c, p, s)) else KeysAt(b, t)
  {
    var b' := ToggleIn(b, c, p, s);
    ArmyKeysToggle(b[c.Index()], c, p, s, t);
    var w, k := ArmyKeysAt(b[0], White, t), ArmyKeysAt(b[1], Black, t);
    if t == s {
      if c == White {
        assert KeysAt(b', t) == Xor(Xor(w, PieceKey(c, p, s)), k);
        XorLaws(w, PieceKey(c, p, s), k);
        XorLaws(PieceKey(c, p, s), k, Empty());
        XorLaws(w, k, PieceKey(c, p, s));
      } else {
        assert KeysAt(b', t) == Xor(w, Xor(k, PieceKey(c, p, s)));
        XorLaws(w, k, PieceKey(c, p, s));
      }
    }
  }

  /** Toggling a piece board changes the hash of the placement by that piece's key, if the square is counted. */
  lemma {:induction false} PlacementToggle(b: Armies, c: Color, p: Piece, s: Square, n: nat)
    requires p.IsReal() && s < 64 && n <= 64
    ensures PlacementHash(ToggleIn(b, c, p, s), n) ==
      if s < n then Xor(PlacementHash(b, n), PieceKey(c, p, s)) else PlacementHash(b, n)
  {
    if n > 0 {
      PlacementToggle(b, c, p, s, n - 1);
      KeysAtToggle(b, c, p, s, n - 1);
      var h, k, d := PlacementHash(b, n - 1), KeysAt(b, n - 1), PieceKey(c, p, s);
      if s < n - 1 {
        XorLaws(h, d, k);
        XorLaws(d, k, Empty());
        XorLaws(h, k, d);
      } else if s == n - 1 {
        XorLaws(h, k, d);
      }
    }
  }

  /** `update` keeps the residue: the same key goes into `z` and into the placement. */
  lemma UpdateResidue(pos: Position, c: Color, p: Piece, s: Square)
    requires p.IsReal() && s < 64
    ensures Residue(Update(pos, c, p, s)) == Residue(pos)
  {
    var r := Update(pos, c, p, s);
    PlacementToggle(pos.b, c, p, s, 64);
    ResidueCancel(pos.z, PlacementHash(pos.b, 64), CastleHash(pos.castle), SideHash(pos.toMove), PieceKey(c, p, s));
  }

  /** A key XORed into both `z` and one part of the hash cancels out of the residue. */
  lemma ResidueCancel(z: Key, ph: Key, ch: Key, sh: Key, k: Key)
    ensures Xor(Xor(z, k), Xor(Xor(Xor(ph, k), ch), sh)) == Xor(z, Xor(Xor(ph, ch), sh))
    ensures Xor(Xor(z, k), Xor(Xor(ph, Xor(ch, k)), sh)) == Xor(z, Xor(Xor(ph, ch), sh))
    ensures Xor(Xor(z, k), Xor(Xor(ph, ch), Xor(sh, k))) == Xor(z, Xor(Xor(ph, ch), sh))
  {
    var rhs := Xor(z, Xor(Xor(ph, ch), sh));
    var l1 := Xor(Xor(z, k), Xor(Xor(Xor(ph, k), ch), sh));
    var l2 := Xor(Xor(z, k), Xor(Xor(ph, Xor(ch, k)), sh));
    var l3 := Xor(Xor(z, k), Xor(Xor(ph, ch), Xor(sh, k)));
    forall i | 0 <= i < 64
      ensures l1[i] == rhs[i] && l2[i] == rhs[i] && l3[i] == rhs[i]
    {
    }
  }

  /** Clearing a castling right changes the castling keys by that right's key if it was held, and not at all otherwise. */
  lemma DropRightResidue(pos: Position, c: Color, side: Side)
    ensures Residue(DropRight(pos, c, side)) == Residue(pos)
  {
    var r := DropRight(pos, c, side);
    if pos.Castle(c, side) {
      CastleHashDrop(pos, c, side);
      ResidueCancel(pos.z, PlacementHash(pos.b, 64), CastleHash(pos.castle), SideHash(pos.toMove), CastleKey(c, side));
    } else {
      assert r.castle[c.Index()] == pos.castle[c.Index()];
      assert r.castle == pos.castle;
    }
  }

  /** Clearing a held right takes its key out of the castling keys. */
  lemma CastleHashDrop(pos: Position, c: Color, side: Side)
    requires pos.Castle(c, side)
    ensures CastleHash(DropRight(pos, c, side).castle) == Xor(CastleHash(pos.castle), CastleKey(c, side))
  {
    var r := DropRight(pos, c, side);
    var k := CastleKey(c, side);
    XorLaws(k, k, Empty());
    RightsHashBoth(pos.castle, QS);
    RightsHashBoth(pos.castle, KS);
    RightsHashBoth(r.castle, QS);
    RightsHashBoth(r.castle, KS);
    var j := 2 * side.Index() + c.Index();
    CastleDelta(RightKey(pos.castle, White, QS), RightKey(pos.castle, Black, QS), RightKey(pos.castle, White, KS), RightKey(pos.castle, Black, KS),
      RightKey(r.castle, White, QS), RightKey(r.castle, Black, QS), RightKey(r.castle, White, KS), RightKey(r.castle, Black, KS), k, j);
  }

  /** If one of the four castling keys changes by d and the others stay, the castling hash changes by d. */
  lemma CastleDelta(a1: Key, a2: Key, b1: Key, b2: Key, a1': Key, a2': Key, b1': Key, b2': Key, d: Key, j: nat)
    requires j < 4
    requires a1' == if j == 0 then Xor(a1, d) else a1
    requires a2' == if j == 1 then Xor(a2, d) else a2
    requires b1' == if j == 2 then Xor(b1, d) else b1
    requires b2' == if j == 3 then Xor(b2, d) else b2
    ensures Xor(Xor(Xor(Empty(), a1'), a2'), Xor(Xor(Empty(), b1'), b2')) ==
      Xor(Xor(Xor(Xor(Empty(), a1), a2), Xor(Xor(Empty(), b1), b2)), d)
  {
    var lhs := Xor(Xor(Xor(Empty(), a1'), a2'), Xor(Xor(Empty(), b1'), b2'));
    var rhs := Xor(Xor(Xor(Xor(Empty(), a1), a2), Xor(Xor(Empty(), b1), b2)), d);
    forall i | 0 <= i < 64
      ensures lhs[i] == rhs[i]
    {
    }
  }

  /** Passing the move toggles the side-to-move key in both `z` and the hash. */
  lemma SideResidue(pos: Position)
    ensures Residue(pos.(toMove := pos.Opp(), z := Xor(pos.z, BlackToMoveKey))) == Residue(pos)
  {
    var r := pos.(toMove := pos.Opp(), z := Xor(pos.z, BlackToMoveKey));
    assert SideHash(r.toMove) == Xor(SideHash(pos.toMove), BlackToMoveKey) by {
      XorLaws(BlackToMoveKey, BlackToMoveKey, Empty());
      XorLaws(Empty(), BlackToMoveKey, Empty());
    }
    ResidueCancel(pos.z, PlacementHash(pos.b, 64), CastleHash(pos.castle), SideHash(pos.toMove), BlackToMoveKey);
  }

  /** The full hash of the boards is the residue's hash plus the en passant keys. */
  lemma BoardsHashResidue(pos: Position)
    requires EPDefined(pos)
    ensures Xor(pos.z, BoardsHash(pos)) == Xor(Residue(pos), EPHash(pos))
  {
    XorMoveLast(pos.z, PlacementHash(pos.b, 64), CastleHash(pos.castle), EPHash(pos), SideHash(pos.toMove));
  }

  lemma XorMoveLast(z: Key, ph: Key, ch: Key, e: Key, sh: Key)
    ensures Xor(z, Xor(Xor(Xor(ph, ch), e), sh)) == Xor(Xor(z, Xor(Xor(ph, ch), sh)), e)
  {
    var lhs, rhs := Xor(z, Xor(Xor(Xor(ph, ch), e), sh)), Xor(Xor(z, Xor(Xor(ph, ch), sh)), e);
    forall i | 0 <= i < 64
      ensures lhs[i] == rhs[i]
    {
    }
  }

  // ---------------------------------------------------------------- Make

  /** The corner each castling right's rook starts on: a1, h1, a8, h8. */
  function Corner(c: Color, side: Side): (s: Square)
    ensures s < 64 && s % 8 == (if side == QS then 0 else 7) && s / 8 == (if c == White then 0 else 7)
  {
    match (c, side)
    case (White, QS) => 0
    case (White, KS) => 7
    case (Black, QS) => 56
    case (Black, KS) => 63
  }

  /**
   * Whether m costs colour c its right to castle to `side`: the mover loses both
   * rights by moving the king and one by moving the rook off its corner, and the
   * opponent loses one when a piece is captured on that corner.
   */
  predicate LosesRight(pos: Position, m: Move, c: Color, side: Side)
  {
    (c == pos.toMove && (m.piece == King || (m.piece == Rook && m.from == Corner(c, side)))) ||
    (c == pos.Opp() && m.IsCapture() && m.to == Corner(c, side))
  }

  /** The square of the captured piece: To, or the square one rank behind it, `To ^ 8`, en passant. */
  function CaptureSquare(m: Move): Square
  {
    if m.ep then FlipRank(m.to) else m.to
  }

  /** The en passant target of a double pawn push: the square it passes over. */
  function EPTarget(m: Move): (s: Square)
    requires m.from < 64 && m.to < 64
    ensures s < 64
  {
    (m.from + m.to) / 2
  }

  /** The castling rook's squares, From-4 to From-1 or From+3 to From+1. */
  function RookSquares(m: Move): (r: (Square, Square))
    requires m.from < 64 && m.IsCastle().1
    requires m.IsCastle().0 == QS ==> m.from >= 4
    requires m.IsCastle().0 == KS ==> m.from < 61
  {
    if m.IsCastle().0 == QS then (m.from - 4, m.from - 1) else (m.from + 3, m.from + 1)
  }

  /**
   * What `Make` needs of its arguments not to panic and to keep the All boards:
   * squares on the board, real pieces (Go's table of keys has no row for All, and
   * the moving piece is never None), and room for the castling rook.
   */
  predicate MakeDefined(pos: Position, m: Move)
  {
    Consistent(pos) && MoveDefined(m)
  }

  /** The squares and pieces of m are ones `Make` can index and toggle. */
  predicate MoveDefined(m: Move)
  {
    m.from < 64 && m.to < 64 &&
    m.piece.IsReal() && m.capturePiece != All && m.promotePiece != All &&
    (m.IsCastle() == (QS, true) ==> m.from >= 4) &&
    (m.IsCastle() == (KS, true) ==> m.from < 61)
  }

  /** The moving piece of colour c leaves From and arrives on To. */
  function MovedBoards(b: Armies, c: Color, m: Move): Armies
    requires m.from < 64 && m.to < 64 && m.piece.IsReal()
  {
    ToggleIn(ToggleIn(b, c, m.piece, m.from), c, m.piece, m.to)
  }

  /** If m captures, the captured piece of c's opponent leaves its square. */
  function CapturedBoards(b: Armies, c: Color, m: Move): Armies
    requires m.to < 64 && m.capturePiece != All
  {
    if m.IsCapture() then ToggleIn(b, c.Opp(), m.capturePiece, CaptureSquare(m)) else b
  }

  /** If m castles, c's rook moves beside the king. */
  function CastledBoards(b: Armies, c: Color, m: Move): Armies
    requires m.from < 64
    requires m.IsCastle() == (QS, true) ==> m.from >= 4
    requires m.IsCastle() == (KS, true) ==> m.from < 61
  {
    if m.IsCastle().1 then
      var (rookFrom, rookTo) := RookSquares(m);
      ToggleIn(ToggleIn(b, c, Rook, rookFrom), c, Rook, rookTo)
    else b
  }

  /** If m promotes, c's pawn on To is replaced by the promoted piece. */
  function PromotedBoards(b: Armies, c: Color, m: Move): Armies
    requires m.to < 64 && m.promotePiece != All
  {
    if m.IsPromotion() then ToggleIn(ToggleIn(b, c, Pawn, m.to), c, m.promotePiece, m.to) else b
  }

  /** The piece boards after `Make`: the piece moves, captures, castles and promotes, in that order. */
  function MakeBoards(pos: Position, m: Move): Armies
    requires MoveDefined(m)
  {
    var c := pos.toMove;
    PromotedBoards(CastledBoards(CapturedBoards(MovedBoards(pos.b, c, m), c, m), c, m), c, m)
  }

  /** The side to move, the en passant target and both move counters agree. */
  predicate SameClocks(p: Position, q: Position)
  {
    p.toMove == q.toMove && p.ep == q.ep && p.halfMove == q.halfMove && p.fullMove == q.fullMove
  }

  /** The XOR of the en passant keys of a position into z, as `Make` does twice. */
  method XorEPKeys(pos: Position, z: Key) returns (z': Key)
    requires EPDefined(pos)
    ensures z' == Xor(z, EPHash(pos))
  {
    z' := z;
    var (a, b) := EligibleEPCapturers(pos);
    if a != 0 {
      z' := Xor(z', EPCaptureKeys[a % 8]);
      if b != 0 {
        XorLaws(z, EPCaptureKeys[a % 8], EPCaptureKeys[b % 8]);
        z' := Xor(z', EPCaptureKeys[b % 8]);
      }
    } else {
      XorLaws(z, Empty(), Empty());
    }
  }

  /** `Make`, moving the piece: it leaves From and arrives on To. */
  method MovePiece(pos: Position, m: Move) returns (r: Position)
    requires m.from < 64 && m.to < 64 && m.piece.IsReal()
    ensures SameClocks(r, pos) && r.kingSquare == pos.kingSquare && r.castle == pos.castle
    ensures r.b == MovedBoards(pos.b, pos.toMove, m)
    ensures Residue(r) == Residue(pos)
  {
    r := pos;
    UpdateResidue(r, r.toMove, m.piece, m.from);
    r := Update(r, r.toMove, m.piece, m.from);
    UpdateResidue(r, r.toMove, m.piece, m.to);
    r := Update(r, r.toMove, m.piece, m.to);
  }

  /**
   * `Make`, capturing: the captured piece leaves To, or the square behind To en
   * passant, and a capture on a corner costs the opponent that corner's right.
   */
  method Capture(pos: Position, m: Move) returns (r: Position)
    requires m.to < 64 && m.capturePiece != All
    ensures SameClocks(r, pos) && r.kingSquare == pos.kingSquare
    ensures r.b == CapturedBoards(pos.b, pos.toMove, m)
    ensures forall c: Color, side: Side ::
      r.Castle(c, side) == (pos.Castle(c, side) && !(c == pos.Opp() && m.IsCapture() && m.to == Corner(c, side)))
    ensures Residue(r) == Residue(pos)
  {
    r := pos;
    if m.IsCapture() {
      var captureSquare := m.to;
      if m.ep {
        // The captured pawn is one square centreward of To.
        captureSquare := FlipRank(captureSquare);
      }
      UpdateResidue(r, r.Opp(), m.capturePiece, captureSquare);
      r := Update(r, r.Opp(), m.capturePiece, captureSquare);
      assert r.castle == pos.castle && r.toMove == pos.toMove;
      r := LoseCornerRight(r, m.to);
    }
  }

  /** A capture on one of the opponent's corners costs the opponent that corner's right to castle. */
  method LoseCornerRight(pos: Position, to: Square) returns (r: Position)
    ensures SameClocks(r, pos) && r.kingSquare == pos.kingSquare && r.b == pos.b
    ensures forall c: Color, side: Side ::
      r.Castle(c, side) == (pos.Castle(c, side) && !(c == pos.Opp() && to == Corner(c, side)))
    ensures Residue(r) == Residue(pos)
  {
    r := pos;
    if (r.toMove == Black && to == 0) || (r.toMove == White && to == 56) {
      CornerOf(pos.Opp(), to, QS);
      DropRightResidue(r, r.Opp(), QS);
      r := DropRight(r, r.Opp(), QS);
    } else if (r.toMove == Black && to == 7) || (r.toMove == White && to == 63) {
      CornerOf(pos.Opp(), to, KS);
      DropRightResidue(r, r.Opp(), KS);
      r := DropRight(r, r.Opp(), KS);
    } else {
      NoCornerOf(pos.Opp(), to);
    }
  }

  /** The corners of colour c are a1 and h1 for White and a8 and h8 for Black. */
  lemma CornerOf(c: Color, s: Square, side: Side)
    requires s == Corner(c, side)
    ensures forall c': Color, side': Side :: (c' == c && s == Corner(c', side')) <==> side' == side && c' == c
  {
  }

  lemma NoCornerOf(c: Color, s: Square)
    requires s != Corner(c, QS) && s != Corner(c, KS)
    ensures forall side: Side :: s != Corner(c, side)
  {
  }

  /** `Make`, castling: the rook moves from its corner to the square the king passed over. */
  method CastleRook(pos: Position, m: Move) returns (r: Position)
    requires m.from < 64
    requires m.IsCastle() == (QS, true) ==> m.from >= 4
    requires m.IsCastle() == (KS, true) ==> m.from < 61
    ensures SameClocks(r, pos) && r.kingSquare == pos.kingSquare && r.castle == pos.castle
    ensures r.b == CastledBoards(pos.b, pos.toMove, m)
    ensures Residue(r) == Residue(pos)
  {
    r := pos;
    var (side, ok) := m.IsCastle();
    if ok {
      var (rookFrom, rookTo) := RookSquares(m);
      UpdateResidue(r, r.toMove, Rook, rookFrom);
      r := Update(r, r.toMove, Rook, rookFrom);
      UpdateResidue(r, r.toMove, Rook, rookTo);
      r := Update(r, r.toMove, Rook, rookTo);
    }
  }

  /** `Make`, promoting: the pawn on To is replaced by the promoted piece. */
  method Promote(pos: Position, m: Move) returns (r: Position)
    requires m.to < 64 && m.promotePiece != All
    ensures SameClocks(r, pos) && r.kingSquare == pos.kingSquare && r.castle == pos.castle
    ensures r.b == PromotedBoards(pos.b, pos.toMove, m)
    ensures Residue(r) == Residue(pos)
  {
    r := pos;
    if m.IsPromotion() {
      UpdateResidue(r, r.toMove, Pawn, m.to);
      r := Update(r, r.toMove, Pawn, m.to);
      UpdateResidue(r, r.toMove, m.promotePiece, m.to);
      r := Update(r, r.toMove, m.promotePiece, m.to);
    }
  }

  /**
   * `Make`, forfeiting rights: a king move records the king's square and forfeits
   * both rights to castle; a rook leaving its corner forfeits that corner's right.
   */
  method ForfeitRights(pos: Position, m: Move) returns (r: Position)
    ensures SameClocks(r, pos) && r.b == pos.b
    ensures r.kingSquare == if m.piece == King then pos.kingSquare[pos.toMove.Index() := m.to] else pos.kingSquare
    ensures forall c: Color, side: Side ::
      r.Castle(c, side) == (pos.Castle(c, side) &&
        !(c == pos.toMove && (m.piece == King || (m.piece == Rook && m.from == Corner(c, side)))))
    ensures Residue(r) == Residue(pos)
  {
    r := pos;
    if m.piece == King {
      ResidueFields(r, r.(kingSquare := r.kingSquare[r.toMove.Index() := m.to]));
      r := r.(kingSquare := r.kingSquare[r.toMove.Index() := m.to]);
      DropRightResidue(r, r.toMove, QS);
      r := DropRight(r, r.toMove, QS);
      DropRightResidue(r, r.toMove, KS);
      r := DropRight(r, r.toMove, KS);
    } else if m.piece == Rook {
      if (r.toMove == White && m.from == 0) || (r.toMove == Black && m.from == 56) {
        DropRightResidue(r, r.toMove, QS);
        r := DropRight(r, r.toMove, QS);
      } else if (r.toMove == White && m.from == 7) || (r.toMove == Black && m.from == 63) {
        DropRightResidue(r, r.toMove, KS);
        r := DropRight(r, r.toMove, KS);
      }
    }
  }

  /** `Make`, the pieces: the mover moves, captures, castles and promotes. */
  method PlacePieces(pos: Position, m: Move) returns (r: Position)
    requires MoveDefined(m)
    ensures SameClocks(r, pos) && r.kingSquare == pos.kingSquare
    ensures r.b == MakeBoards(pos, m)
    ensures forall c: Color, side: Side ::
      r.Castle(c, side) == (pos.Castle(c, side) && !(c == pos.Opp() && m.IsCapture() && m.to == Corner(c, side)))
    ensures Residue(r) == Residue(pos)
  {
    var moved := MovePiece(pos, m);
    var captured := Capture(moved, m);
    r := CastleRook(captured, m);
    r := Promote(r, m);
    assert r.castle == captured.castle && moved.castle == pos.castle && moved.toMove == pos.toMove;
    forall c: Color, side: Side
      ensures r.Castle(c, side) == (pos.Castle(c, side) && !(c == pos.Opp() && m.IsCapture() && m.to == Corner(c, side)))
    {
      assert r.Castle(c, side) == captured.Castle(c, side);
      assert moved.Castle(c, side) == pos.Castle(c, side);
    }
  }

  /** The rights lost to a capture on a corner and those the mover forfeits are together the rights a move loses. */
  lemma LosesRightSplit(pos: Position, m: Move, captured: Position, forfeited: Position)
    requires captured.toMove == pos.toMove
    requires forall c: Color, side: Side ::
      captured.Castle(c, side) == (pos.Castle(c, side) && !(c == pos.Opp() && m.IsCapture() && m.to == Corner(c, side)))
    requires forall c: Color, side: Side ::
      forfeited.Castle(c, side) == (captured.Castle(c, side) &&
        !(c == pos.toMove && (m.piece == King || (m.piece == Rook && m.from == Corner(c, side)))))
    ensures forall c: Color, side: Side :: forfeited.Castle(c, side) == (pos.Castle(c, side) && !LosesRight(pos, m, c, side))
  {
  }

  /**
   * The position `Make` produces, field by field: the other side moves, the
   * counters advance, the en passant target is the square a double push passed
   * over, a king move records the king's square, the rights a move loses are
   * gone, the piece boards change as `MakeBoards` says, and `z` keeps its
   * distance from the hash of the boards.
   */
  function Made(pos: Position, m: Move): (r: Position)
    requires MakeDefined(pos, m)
    ensures Consistent(r) && EPDefined(r) && EPDefined(pos)
    ensures Xor(r.z, BoardsHash(r)) == Xor(pos.z, BoardsHash(pos))
  {
    ConsistentEPDefined(pos);
    MakeBoardsConsistent(pos, m);
    var q := Position(
      castle := [[pos.castle[0][0] && !LosesRight(pos, m, White, QS), pos.castle[0][1] && !LosesRight(pos, m, White, KS)],
                 [pos.castle[1][0] && !LosesRight(pos, m, Black, QS), pos.castle[1][1] && !LosesRight(pos, m, Black, KS)]],
      ep := if m.IsDouble() then EPTarget(m) else 0,
      toMove := pos.Opp(),
      halfMove := if m.piece == Pawn || m.IsCapture() then 0 else pos.halfMove + 1,
      fullMove := if pos.toMove == Black then pos.fullMove + 1 else pos.fullMove,
      kingSquare := if m.piece == King then pos.kingSquare[pos.toMove.Index() := m.to] else pos.kingSquare,
      b := MakeBoards(pos, m),
      z := pos.z);
    assert Consistent(q) by { assert q.b == pos.(b := MakeBoards(pos, m)).b; }
    ConsistentEPDefined(q);
    var r := q.(z := Xor(Xor(pos.z, BoardsHash(pos)), BoardsHash(q)));
    SameBoardsHash(q, r);
    XorUnsolve(r.z, BoardsHash(r), Xor(pos.z, BoardsHash(pos)));
    r
  }

  /**
   * The incremental update is the hash when it starts from one: if pos's
   * bitstring is its Zobrist hash, so is that of the position after the move,
   * provided no square of either position holds two pieces (which
   * `Invariants.MadeValid` shows of every generated move).
   */
  lemma MadeHash(pos: Position, m: Move)
    requires MakeDefined(pos, m) && Valid(pos) && pos.z == Hash(pos)
    requires Valid(Made(pos, m))
    ensures Readable(Made(pos, m)) && Made(pos, m).z == Hash(Made(pos, m))
  {
    var r := Made(pos, m);
    HashValid(pos);
    HashValid(r);
    XorLaws(pos.z, Empty(), Empty());
    XorSolve(r.z, BoardsHash(r), Empty());
    XorLaws(BoardsHash(r), Empty(), Empty());
  }

  /** A position with `Made`'s fields and its distance from the hash of the boards is `Made`. */
  lemma MadeOf(pos: Position, m: Move, r: Position)
    requires MakeDefined(pos, m) && EPDefined(r)
    requires r.toMove == pos.toMove.Opp()
    requires r.fullMove == if pos.toMove == Black then pos.fullMove + 1 else pos.fullMove
    requires r.halfMove == if m.piece == Pawn || m.IsCapture() then 0 else pos.halfMove + 1
    requires r.ep == if m.IsDouble() then EPTarget(m) else 0
    requires r.kingSquare == if m.piece == King then pos.kingSquare[pos.toMove.Index() := m.to] else pos.kingSquare
    requires forall c: Color, side: Side :: r.Castle(c, side) == (pos.Castle(c, side) && !LosesRight(pos, m, c, side))
    requires r.b == MakeBoards(pos, m)
    requires EPDefined(pos) && Xor(r.z, BoardsHash(r)) == Xor(pos.z, BoardsHash(pos))
    ensures r == Made(pos, m)
  {
    var made := Made(pos, m);
    MadeRights(pos, m);
    RightsExt(r, made);
    assert r.(z := made.z) == made;
    SameBoardsHash(r, made);
    XorSolve(r.z, BoardsHash(r), Xor(pos.z, BoardsHash(pos)));
    XorSolve(made.z, BoardsHash(made), Xor(pos.z, BoardsHash(pos)));
  }

  /** After `Make` colour c keeps its right to castle to `side` exactly when it held it and the move does not lose it. */
  lemma MadeRights(pos: Position, m: Move)
    requires MakeDefined(pos, m)
    ensures forall c: Color, side: Side :: Made(pos, m).Castle(c, side) == (pos.Castle(c, side) && !LosesRight(pos, m, c, side))
  {
    var made := Made(pos, m);
    forall c: Color, side: Side
      ensures made.Castle(c, side) == (pos.Castle(c, side) && !LosesRight(pos, m, c, side))
    {
      assert made.castle[c.Index()][side.Index()] == (pos.castle[c.Index()][side.Index()] && !LosesRight(pos, m, c, side));
    }
  }

  /** Two positions hold the same rights when they agree on each of the four. */
  lemma RightsExt(p: Position, q: Position)
    requires forall c: Color, side: Side :: p.Castle(c, side) == q.Castle(c, side)
    ensures p.castle == q.castle
  {
    assert p.Castle(White, QS) == q.Castle(White, QS) && p.Castle(White, KS) == q.Castle(White, KS);
    assert p.Castle(Black, QS) == q.Castle(Black, QS) && p.Castle(Black, KS) == q.Castle(Black, KS);
    assert p.castle[0] == q.castle[0];
    assert p.castle[1] == q.castle[1];
  }

  /** The hash of the boards does not read `z`. */
  lemma SameBoardsHash(p: Position, q: Position)
    requires EPDefined(p) && p.(z := q.z) == q
    ensures EPDefined(q) && BoardsHash(p) == BoardsHash(q)
  {
    EPSame(p, q);
  }

  /** Conversely `(d ^ h) ^ h == d`. */
  lemma XorUnsolve(z: Key, h: Key, d: Key)
    requires z == Xor(d, h)
    ensures Xor(z, h) == d
  {
    XorLaws(d, h, h);
    XorLaws(d, Empty(), Empty());
  }

  /** `z ^ h == d` determines z as `d ^ h`. */
  lemma XorSolve(z: Key, h: Key, d: Key)
    requires Xor(z, h) == d
    ensures z == Xor(d, h)
  {
    XorLaws(z, h, h);
    XorLaws(z, Empty(), Empty());
  }

  /**
   * `Make`: applies m to a copy of pos, step by step as the Go function does,
   * and arrives at the position `Made` describes.
   */
  method Make(pos: Position, m: Move) returns (r: Position)
    requires MakeDefined(pos, m)
    ensures r == Made(pos, m)
  {
    ConsistentEPDefined(pos);
    var p := pos;
    // Remove en passant capturing rights from the hash.
    if p.ep != 0 {
      var z := XorEPKeys(p, p.z);
      p := p.(z := z);
    } else {
      NoEPKeys(pos);
    }
    EPKeysResidue(pos, p);
    p := PlacePieces(p, m);
    var forfeited := ForfeitRights(p, m);
    LosesRightSplit(pos, m, p, forfeited);
    var q := PassMove(forfeited, m);
    MakeBoardsConsistent(pos, m);
    ConsistentEPDefined(q);
    r := q;
    if m.IsDouble() {
      // Add en passant capturing rights to the hash.
      var z := XorEPKeys(q, q.z);
      r := q.(z := z);
    } else {
      NoEPKeys(q);
    }
    EPKeysRestored(q, r);
    MadeOf(pos, m, r);
  }

  /**
   * `Make`, the counters and the turn: the half-move clock restarts after a pawn
   * move or a capture, the full-move number advances after Black's move, the
   * side to move changes with its key, and the en passant target is set after a
   * double push and cleared otherwise.
   */
  method PassMove(pos: Position, m: Move) returns (r: Position)
    requires m.from < 64 && m.to < 64
    ensures r.toMove == pos.Opp() && r.b == pos.b && r.castle == pos.castle && r.kingSquare == pos.kingSquare
    ensures r.halfMove == if m.piece == Pawn || m.IsCapture() then 0 else pos.halfMove + 1
    ensures r.fullMove == if pos.toMove == Black then pos.fullMove + 1 else pos.fullMove
    ensures r.ep == if m.IsDouble() then EPTarget(m) else 0
    ensures Residue(r) == Residue(pos)
  {
    r := pos;
    if m.piece == Pawn || m.IsCapture() {
      r := r.(halfMove := 0);
    } else {
      r := r.(halfMove := r.halfMove + 1);
    }
    if r.toMove == Black {
      r := r.(fullMove := r.fullMove + 1);
    }
    SideResidue(r);
    r := r.(toMove := r.Opp(), z := Xor(r.z, BlackToMoveKey));
    ghost var turned := r;
    if m.IsDouble() {
      r := r.(ep := EPTarget(m));
    } else {
      r := r.(ep := 0);
    }
    ResidueFields(turned, r);
  }

  /** The en passant keys read the piece boards, the target and the side to move alone. */
  lemma EPSame(p: Position, q: Position)
    requires EPDefined(p) && p.b == q.b && p.ep == q.ep && p.toMove == q.toMove
    ensures EPDefined(q) && EPHash(q) == EPHash(p)
  {
    hide PieceOn, PieceOnDefined, FlipRank;
    if p.ep != 0 {
      if p.ep % 8 != 0 {
        PieceOnBoards(p, q, FlipRank(p.ep) - 1);
      }
      if p.ep % 8 != 7 {
        PieceOnBoards(p, q, FlipRank(p.ep) + 1);
      }
    }
    assert EligibleEPCapturers(q) == EligibleEPCapturers(p);
  }

  /** Without an en passant target there are no en passant keys to add or remove. */
  lemma NoEPKeys(pos: Position)
    requires EPDefined(pos) && pos.ep == 0
    ensures Xor(pos.z, EPHash(pos)) == pos.z
  {
    XorLaws(pos.z, Empty(), Empty());
  }

  /** Taking the en passant keys out of `z` leaves the residue equal to the hash distance. */
  lemma EPKeysResidue(pos: Position, p: Position)
    requires EPDefined(pos) && p == pos.(z := Xor(pos.z, EPHash(pos)))
    ensures Residue(p) == Xor(pos.z, BoardsHash(pos))
  {
    BoardsHashResidue(pos);
    ResidueCancel(pos.z, PlacementHash(pos.b, 64), CastleHash(pos.castle), SideHash(pos.toMove), EPHash(pos));
    XorLaws(Residue(pos), EPHash(pos), EPHash(pos));
  }

  /** Putting the new position's en passant keys into `z` restores the hash distance. */
  lemma EPKeysRestored(q: Position, r: Position)
    requires EPDefined(q) && r == q.(z := Xor(q.z, EPHash(q)))
    ensures EPDefined(r) && Xor(r.z, BoardsHash(r)) == Residue(q)
  {
    ResidueCancel(q.z, PlacementHash(q.b, 64), CastleHash(q.castle), SideHash(q.toMove), EPHash(q));
    EPSame(q, r);
    BoardsHashResidue(r);
    XorLaws(Residue(q), EPHash(r), EPHash(r));
  }

  /** Every `update` of `Make` keeps the All boards the XOR of the piece boards. */
  lemma ToggleInConsistent(b: Armies, c: Color, p: Piece, s: Square)
    requires ArmyConsistent(b[0]) && ArmyConsistent(b[1]) && p.IsReal() && s < 64
    ensures ArmyConsistent(ToggleIn(b, c, p, s)[0]) && ArmyConsistent(ToggleIn(b, c, p, s)[1])
  {
    ArmyToggleConsistent(b[c.Index()], p, s);
  }

  /** So `Make` keeps them too, whatever the move. */
  lemma MakeBoardsConsistent(pos: Position, m: Move)
    requires MakeDefined(pos, m)
    ensures Consistent(pos.(b := MakeBoards(pos, m)))
  {
    var c := pos.toMove;
    ToggleInConsistent(pos.b, c, m.piece, m.from);
    ToggleInConsistent(ToggleIn(pos.b, c, m.piece, m.from), c, m.piece, m.to);
    var b1 := MovedBoards(pos.b, c, m);
    if m.IsCapture() {
      ToggleInConsistent(b1, c.Opp(), m.capturePiece, CaptureSquare(m));
    }
    var b2 := CapturedBoards(b1, c, m);
    if m.IsCastle().1 {
      var (rookFrom, rookTo) := RookSquares(m);
      ToggleInConsistent(b2, c, Rook, rookFrom);
      ToggleInConsistent(ToggleIn(b2, c, Rook, rookFrom), c, Rook, rookTo);
    }
    var b3 := CastledBoards(b2, c, m);
    if m.IsPromotion() {
      ToggleInConsistent(b3, c, Pawn, m.to);
      ToggleInConsistent(ToggleIn(b3, c, Pawn, m.to), c, m.promotePiece, m.to);
    }
  }
}

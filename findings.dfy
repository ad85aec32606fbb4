/**
 * Inputs on which `ParseFEN` as written and the reading its checks and tests
 * intend part ways: `ReadFen` and `ReadRest` model the code, `ReadFenChecked`
 * and `ReadRestChecked` the intended reading, which the round trip of
 * `FenRoundTrip` is proved for. One of them, a castling right granted without
 * its rook, is followed on into `Make`, where the castling it allows puts two
 * pieces on one square.
 */
module FenFindings {
  import opened Bits
  import opened Chess
  import opened Zobrist
  import opened Decimal
  import opened Strings
  import opened Moves
  import opened Attacks
  import opened MoveGen
  import opened PawnGen
  import opened Castling
  import opened Generate
  import opened Fen
  import opened FenRoundTrip
  import opened Invariants

  /** The six fields of a record, each a word with no white space. */
  lemma FieldsOfSix(a: string, b: string, c: string, d: string, e: string, f: string)
    requires a != [] && b != [] && c != [] && d != [] && e != [] && f != []
    requires Solid(a) && Solid(b) && Solid(c) && Solid(d) && Solid(e) && Solid(f)
    ensures Fields(a + " " + b + " " + c + " " + d + " " + e + " " + f) == [a, b, c, d, e, f]
  {
    var ws := [a, b, c, d, e, f];
    JoinSix(a, b, c, d, e, f, ' ');
    FieldsJoin(ws);
  }

  /** The fields of the record "Kk w - - 0 1". */
  lemma OneRowFields()
    ensures Fields("Kk w - - 0 1") == ["Kk", "w", "-", "-", "0", "1"]
  {
    assert "Kk w - - 0 1" == "Kk" + " " + "w" + " " + "-" + " " + "-" + " " + "0" + " " + "1";
    assert Solid("Kk") && Solid("w") && Solid("-") && Solid("0") && Solid("1");
    hide *;
    FieldsOfSix("Kk", "w", "-", "-", "0", "1");
  }

  /** Its placement field: one king of each colour, one row. */
  lemma OneRowCounts()
    ensures Count("Kk", 'K') == 1 && Count("Kk", 'k') == 1
    ensures Split("Kk", '/') == ["Kk"]
  {
    assert "Kk"[1..] == "k" && "k"[1..] == "";
    assert Lacks("Kk", '/');
    SplitJoin(["Kk"], '/');
  }

  /** The one row places both kings. */
  lemma OneRowPlaced()
    ensures PlaceRows(Blank(), ["Kk"], 0).Placed?
  {
    assert "Kk"[1..] == "k" && "k"[1..] == "";
    RuneTables('K');
    RuneTables('k');
    assert PlaceRow(Blank(), "Kk", RowStart(0)).Some?;
    assert ["Kk"][1..] == [];
  }

  /** The fields after the placement are read. */
  lemma OneRowRest(st: Placement)
    ensures ReadRest(["Kk", "w", "-", "-", "0", "1"], st).Parsed?
  {
    assert Atoi("0") == Some(0) && Atoi("1") == Some(1);
    assert CastlingField("-") && EnPassantField("-");
  }

  /**
   * A record with one row and no other board: the row-count error is
   * assigned and then replaced by the half-move clock's nil error, so the
   * record is read as a position.
   */
  lemma RowCountLost()
    ensures ReadFen("Kk w - - 0 1").Parsed?
  {
    hide Fields, Count, Split, PlaceRows, ReadRest, Blank;
    OneRowFields();
    OneRowCounts();
    OneRowPlaced();
    var st := PlaceRows(Blank(), ["Kk"], 0).st;
    OneRowRest(st);
  }

  /** The intended reading rejects the same record for its count of rows. */
  lemma RowCountReported()
    ensures ReadFenChecked("Kk w - - 0 1") == Failed(RowCount(1))
  {
    OneRowFields();
    OneRowCounts();
    hide Fields, Count, Split;
  }

  /**
   * The first row loop as written counts characters, so a row that covers
   * eight squares with one digit is counted as one square, and every row of
   * eight characters passes, whatever it covers.
   */
  lemma SquaresCountedAsCharacters()
    ensures CountedSquares("8") == 1 && Width("8") == 8
    ensures CountedSquares("3ppppppp") == 8 && Width("3ppppppp") == 10
    ensures forall s :: CountedSquares(s) == |s|
  {
    forall s ensures CountedSquares(s) == |s| {
      CountedSquaresLength(s);
    }
    assert Width("8"[1..]) == 0;
    CountedSquaresLength("3ppppppp");
  }

  /**
   * The digit branch of the row count adds one square less than the digit
   * stands for: `char - '1'` where `char - '0'` is meant. The branch is
   * reached only once `isWhite` stops accepting digits.
   */
  lemma DigitCountedShort(ch: char)
    requires IsNumber(ch)
    ensures DigitSquares(ch) == Width([ch]) - 1
    ensures DigitSquares('8') == 7 && Width("8") == 8
  {
    assert [ch][1..] == [];
    assert "8"[1..] == [];
  }

  /**
   * The field-count error is assigned without a return, so it never reaches
   * the caller: fields after the sixth are ignored, and a record of fewer than
   * six fields is never read as a position (it panics at the first missing
   * field, or fails earlier).
   */
  lemma FieldCountIgnored(fields: seq<string>, st: Placement)
    ensures |fields| > 6 ==> ReadRest(fields, st) == ReadRest(fields[..6], st)
    ensures |fields| < 6 ==> !ReadRest(fields, st).Parsed?
    ensures |fields| < 2 ==> ReadRest(fields, st) == Panicked
  {
    if |fields| > 6 {
      var six := fields[..6];
      assert forall i :: 0 <= i < 6 ==> six[i] == fields[i];
    }
  }

  /**
   * `ParseFEN` as written leaves `z` zero: a record `FEN` writes is read back
   * as its position exactly when that position's Zobrist bitstring is zero.
   */
  lemma HashLeftZero(pos: Position)
    requires Describable(pos) && pos.z == Hash(pos)
    ensures ReadFen(FenOf(pos)) == Parsed(pos) <==> Hash(pos) == Empty()
  {
    FenRoundTripAsWritten(pos);
    if ReadFen(FenOf(pos)) == Parsed(pos) {
      assert pos == pos.(z := Empty());
    }
  }

  /**
   * An en passant field of one allowed character: the check lets it through
   * and the square's second byte is read past its end; the intended reading
   * rejects it.
   */
  lemma EnPassantOneCharacter(placement: string, st: Placement)
    requires ArmyConsistent(st.b[0]) && ArmyConsistent(st.b[1])
    ensures ReadRest([placement, "w", "-", "e", "0", "1"], st) == Panicked
    ensures ReadRestChecked([placement, "w", "-", "e", "0", "1"], st) == Failed(EnPassantCharacter("e"))
  {
    assert CastlingField("-") && EnPassantField("e") && !EnPassantName("e");
  }

  /**
   * An en passant field with a character outside a-h and 1-8: the error
   * reports the castling field instead; the intended reading reports the en
   * passant field.
   */
  lemma EnPassantErrorField(placement: string, st: Placement)
    requires ArmyConsistent(st.b[0]) && ArmyConsistent(st.b[1])
    ensures ReadRest([placement, "w", "KQ", "e9", "0", "1"], st) == Failed(EnPassantCharacter("KQ"))
    ensures ReadRestChecked([placement, "w", "KQ", "e9", "0", "1"], st) == Failed(EnPassantCharacter("e9"))
  {
    assert CastlingChar('K') && CastlingChar('Q');
    assert CastlingField("KQ") && !EnPassantChar('9') && !EnPassantName("e9");
  }

  // ---------------------------------------------------------------- rights and targets taken on trust

  /**
   * The castling field is granted whatever the placement holds: "Q" gives
   * White the queenside right on any boards. The intended reading rejects it
   * when no white rook stands on a1.
   */
  lemma RooklessRightGranted(placement: string, st: Placement)
    requires ArmyConsistent(st.b[0]) && ArmyConsistent(st.b[1])
    ensures ReadRest([placement, "w", "Q", "-", "0", "1"], st) ==
      Parsed(Position([[true, false], [false, false]], 0, White, 0, 1, st.ks, st.b, Empty()))
    ensures !Has(st.b[0][Rook.Index()], 0) ==>
      ReadRestChecked([placement, "w", "Q", "-", "0", "1"], st) == Failed(CastlingRook("Q"))
  {
    assert Atoi("0") == Some(0) && Atoi("1") == Some(1);
    assert CastlingChar('Q') && CastlingField("Q") && EnPassantField("-") && EnPassantName("-");
    assert Grants(NoRights(), "Q") == [[true, false], [false, false]] by {
      assert ColorOf('Q') == White && PieceOf('Q') == Queen;
      var none := NoRights();
      assert none[0][0 := true] == [true, false];
      assert none[0 := none[0][0 := true]] == [[true, false], [false, false]];
      assert Grant(none, 'Q') == none[White.Index() := none[White.Index()][QS.Index() := true]];
      assert Grant(NoRights(), 'Q') == [[true, false], [false, false]];
      assert "Q"[1..] == [];
    }
    var pos := Position([[true, false], [false, false]], 0, White, 0, 1, st.ks, st.b, Empty());
    assert pos.Castle(White, QS);
    if !Has(st.b[0][Rook.Index()], 0) {
      assert !RooksHome(pos);
      assert !RightsBacked(pos);
    }
  }

  /** A board holding exactly the squares s and t. */
  function Two(s: Square, t: Square): Board
  {
    seq(64, i => i == s as int || i == t as int)
  }

  /**
   * A knight on a1, the white king on e1 with the queenside right, the black
   * king on e8, White to move: what `ParseFEN` makes of "4k3/8/8/8/8/8/8/N3K3 w Q - 0 1".
   */
  function KnightInCorner(): Position
  {
    Position([[true, false], [false, false]], 0, White, 0, 1, [4, 60],
      [[Empty(), Empty(), Two(0, 0), Empty(), Empty(), Empty(), Two(4, 4), Two(0, 4)],
       [Empty(), Empty(), Empty(), Empty(), Empty(), Empty(), Two(60, 60), Two(60, 60)]],
      Empty())
  }

  /** No black piece attacks the squares White's king crosses to castle queenside. */
  lemma KnightInCornerSafe(s: Square)
    requires 2 <= s <= 4
    ensures !IsAttacked(KnightInCorner(), s, Black)
  {
    IsAttackedIff(KnightInCorner(), s, Black);
  }

  /** The position is valid and playable: one piece at most on each square, kings on their squares. */
  lemma KnightInCornerValid()
    ensures Valid(KnightInCorner()) && Playable(KnightInCorner()) && !RooksHome(KnightInCorner())
  {
    var pos := KnightInCorner();
    forall i | 0 <= i < 64
      ensures ValidAt(pos, i)
    {
    }
    ValidConsistent(pos);
    assert !Has(pos.Pieces(White, Rook), Corner(White, QS));
  }

  /** The squares White's king crosses to castle queenside are empty. */
  lemma KnightInCornerClear()
    ensures PathClear(KnightInCorner(), QS)
  {
    assert CastleEmptyList(White, QS) == [1, 2, 3];
  }

  /** The squares White's king crosses to castle queenside are not attacked. */
  lemma KnightInCornerPathSafe()
    ensures PathSafe(KnightInCorner(), QS)
  {
    var pos := KnightInCorner();
    assert CastleKingList(White, QS) == [2, 3, 4];
    assert pos.toMove == White && pos.Opp() == Black;
    hide IsAttacked, KnightInCorner;
    forall s | s in CastleKingList(White, QS)
      ensures s < 64 && !IsAttacked(pos, s, Black)
    {
      KnightInCornerSafe(s);
    }
  }

  /** A castling `canCastle` allows is among the generated moves, and `Make` of it is defined. */
  lemma AllowedGenerated(pos: Position, side: Side)
    requires Playable(pos) && CastleAllowed(pos, side)
    ensures CastleMove(pos, side) in Generated(pos)
    ensures MakeDefined(pos, CastleMove(pos, side))
  {
    var m := CastleMove(pos, side);
    assert Consistent(pos);
    CastleCorner(pos, side);
    hide Playable, CastleAllowed;
    KingMoveListIff(pos, m);
    GeneratedIff(pos, m);
  }

  /** Castling queenside is allowed, so the king moves include it. */
  lemma KnightInCornerCastles()
    ensures Consistent(KnightInCorner())
    ensures CastleAllowed(KnightInCorner(), QS) && CastleMove(KnightInCorner(), QS) in Generated(KnightInCorner())
    ensures MakeDefined(KnightInCorner(), CastleMove(KnightInCorner(), QS))
  {
    var pos := KnightInCorner();
    KnightInCornerValid();
    KnightInCornerClear();
    KnightInCornerPathSafe();
    assert pos.Castle(pos.toMove, QS);
    assert Consistent(pos);
    hide KnightInCorner, PathClear, PathSafe, Valid, Playable, Consistent;
    assert CastleAllowed(pos, QS);
    AllowedGenerated(pos, QS);
  }

  /**
   * `Make` toggles the castling rook whatever stands on the corner: when a
   * right is held and another of the mover's pieces stands on its corner, the
   * castling leaves that piece and a rook on one square.
   */
  lemma CastlingOntoPiece(pos: Position, side: Side, p: Piece)
    requires Playable(pos) && pos.Castle(pos.toMove, side)
    requires p.IsReal() && p != Rook && Has(pos.Pieces(pos.toMove, p), Corner(pos.toMove, side))
    requires !Has(pos.Pieces(pos.toMove, Rook), Corner(pos.toMove, side))
    ensures MakeDefined(pos, CastleMove(pos, side)) && !Valid(Made(pos, CastleMove(pos, side)))
  {
    var c, m := pos.toMove, CastleMove(pos, side);
    var k := Corner(c, side);
    assert King.IsReal() && Rook.IsReal();
    hide *;
    CastleCorner(pos, side);
    CastledBoardsOf(pos, side);
    PiecesOn(pos, c, p, k);
    PiecesOn(pos, c, Rook, k);
    var rookTo := RookSquares(m).1;
    var b1 := ToggleIn(pos.b, c, King, m.from);
    var b2 := ToggleIn(b1, c, King, m.to);
    var b3 := ToggleIn(b2, c, Rook, k);
    var r := Made(pos, m);
    ToggleKeeps(pos.b, c, King, m.from, p, k);
    ToggleKeeps(b1, c, King, m.to, p, k);
    ToggleKeeps(b2, c, Rook, k, p, k);
    ToggleKeeps(b3, c, Rook, rookTo, p, k);
    ToggleKeeps(pos.b, c, King, m.from, Rook, k);
    ToggleKeeps(b1, c, King, m.to, Rook, k);
    ToggleFlips(b2, c, Rook, k);
    ToggleKeeps(b3, c, Rook, rookTo, Rook, k);
    ValidBoardsOf(r);
    if ValidBoards(r.b) {
      OnlyOne(r.b, c, p, c, Rook, k);
    }
  }

  /** `Has` of a piece board is `On` of the position's boards. */
  lemma PiecesOn(pos: Position, c: Color, p: Piece, t: Square)
    ensures Has(pos.Pieces(c, p), t) == On(pos.b, c, p, t)
  {
  }

  /** Castling from home moves the king and the rook off and onto squares other than the corner, except the rook leaving it. */
  lemma CastleCorner(pos: Position, side: Side)
    requires Playable(pos) && pos.Castle(pos.toMove, side)
    ensures MoveDefined(CastleMove(pos, side)) && CastleMove(pos, side).IsCastle() == (side, true)
    ensures var k, m := Corner(pos.toMove, side), CastleMove(pos, side);
      k < 64 && m.from < 64 && m.to < 64 && RookSquares(m).1 < 64 &&
      RookSquares(m).0 == k && RookSquares(m).1 != k && m.from != k && m.to != k
  {
    assert pos.King(pos.toMove) == KingHome(pos.toMove);
    CastleMoveIsCastle(pos, side);
  }

  /** Toggling one kind of piece on one square leaves every other kind and square of that army as it was. */
  lemma ToggleKeeps(b: Armies, c: Color, q: Piece, s: Square, p: Piece, t: Square)
    requires q.IsReal() && s < 64 && p.IsReal() && t < 64 && (p != q || t != s)
    ensures On(ToggleIn(b, c, q, s), c, p, t) == On(b, c, p, t)
  {
    PieceIndexInjective(p, q);
  }

  /** Toggling a kind of piece on a square flips it there. */
  lemma ToggleFlips(b: Armies, c: Color, q: Piece, s: Square)
    requires q.IsReal() && s < 64
    ensures On(ToggleIn(b, c, q, s), c, q, s) == !On(b, c, q, s)
  {
  }

  /** White holds the queenside right with a knight, not a rook, on a1. */
  lemma KnightInCornerKnight()
    ensures var pos := KnightInCorner();
      pos.Castle(pos.toMove, QS) && Has(pos.Pieces(pos.toMove, Knight), Corner(pos.toMove, QS)) &&
      !Has(pos.Pieces(pos.toMove, Rook), Corner(pos.toMove, QS))
  {
  }

  /**
   * The position is valid and playable and castling queenside is generated,
   * yet `Make` of it puts the rook on a1 beside the knight, so the position
   * it produces is not valid.
   */
  lemma RooklessCastling()
    ensures Valid(KnightInCorner()) && Playable(KnightInCorner()) && !RooksHome(KnightInCorner())
    ensures CastleAllowed(KnightInCorner(), QS) && CastleMove(KnightInCorner(), QS) in Generated(KnightInCorner())
    ensures MakeDefined(KnightInCorner(), CastleMove(KnightInCorner(), QS))
    ensures !Valid(Made(KnightInCorner(), CastleMove(KnightInCorner(), QS)))
  {
    assert Knight.IsReal() && Knight != Rook;
    hide *;
    KnightInCornerValid();
    KnightInCornerCastles();
    KnightInCornerKnight();
    CastlingOntoPiece(KnightInCorner(), QS, Knight);
  }
}

/**
 * Forsyth-Edwards Notation (fen.go), the record of a position defined in
 * section 16.1 of the PGN Standard: six fields separated by spaces, namely
 * the piece placement (ranks 8 down to 1 separated by '/', a run of empty
 * squares written as its length), the side to move, the castling rights,
 * the en passant target, the half-move clock and the full-move number.
 *
 * `ParseFen` is `ParseFEN` as written and `ReadFen` the function it
 * computes; `ReadFenChecked` is the reading the checks of `ParseFEN` and its
 * tests call for. `Fen` is `FEN`, computing `FenOf`.
 */
module Fen {
  import opened Bits
  import opened Chess
  import opened Moves
  import opened Attacks
  import opened Zobrist
  import opened Decimal
  import opened Strings
  import opened Notation
  import opened Generate
  import opened Invariants

  // ---------------------------------------------------------------- rune tables

  /** `RuneToColor`: the colour of each piece letter, upper case White and lower case Black. */
  const RuneToColor: map<char, Color> := map[
    'P' := White, 'N' := White, 'B' := White, 'R' := White, 'Q' := White, 'K' := White,
    'p' := Black, 'n' := Black, 'b' := Black, 'r' := Black, 'q' := Black, 'k' := Black]

  /** `RuneToPiece`: the kind of each piece letter. */
  const RuneToPiece: map<char, Piece> := map[
    'P' := Pawn, 'p' := Pawn, 'N' := Knight, 'n' := Knight, 'B' := Bishop, 'b' := Bishop,
    'R' := Rook, 'r' := Rook, 'Q' := Queen, 'q' := Queen, 'K' := King, 'k' := King]

  /** The twelve piece letters. */
  predicate IsPieceLetter(ch: char)
  {
    ch in "PNBRQKpnbrqk"
  }

  /** Both tables have the twelve piece letters as their keys, and map them to real pieces. */
  lemma RuneTables(ch: char)
    ensures ch in RuneToColor <==> IsPieceLetter(ch)
    ensures ch in RuneToPiece <==> IsPieceLetter(ch)
    ensures ch in RuneToPiece ==> RuneToPiece[ch].IsReal()
  {
  }

  /** `RuneToColor[ch]`: a missing key reads as the zero Color, White. */
  function ColorOf(ch: char): Color
  {
    if ch in RuneToColor then RuneToColor[ch] else White
  }

  /** `RuneToPiece[ch]`: a missing key reads as the zero Piece, None. */
  function PieceOf(ch: char): Piece
  {
    if ch in RuneToPiece then RuneToPiece[ch] else None
  }

  /** `isWhite`. */
  predicate IsWhite(ch: char)
  {
    ColorOf(ch) == White
  }

  /** `isBlack`. */
  predicate IsBlack(ch: char)
  {
    ColorOf(ch) == Black
  }

  /** `isNumber`: a digit 1 to 8. */
  predicate IsNumber(ch: char)
  {
    '1' <= ch <= '8'
  }

  /**
   * Since a missing key reads as White, `isWhite` holds of every character
   * that is not a black piece letter: every character is white or black.
   */
  lemma WhiteOrBlack(ch: char)
    ensures IsWhite(ch) || IsBlack(ch)
    ensures IsBlack(ch) <==> ch in "pnbrqk"
  {
  }

  /**
   * `PieceChar`: the letter of p, upper case for White and lower case for
   * Black; nothing for None and All.
   */
  function PieceChar(c: Color, p: Piece): (s: string)
    ensures |s| == if p.IsReal() then 1 else 0
  {
    var u := if p.IsReal() then PieceLetter(p) else "";
    if c == Black then ToLower(u) else u
  }

  /** The rune tables read a piece's letter back as that piece of that colour. */
  lemma PieceCharRunes(c: Color, p: Piece)
    requires p.IsReal()
    ensures IsPieceLetter(PieceChar(c, p)[0])
    ensures RuneToColor[PieceChar(c, p)[0]] == c && RuneToPiece[PieceChar(c, p)[0]] == p
  {
  }

  /** White's letters are those of standard algebraic notation. */
  lemma PieceCharWhite(p: Piece)
    requires p.IsReal()
    ensures PieceChar(White, p) == PieceLetter(p)
  {
  }

  // ---------------------------------------------------------------- outcomes

  /** The errors `ParseFEN` reports. */
  datatype FenError =
    | FieldCount(fields: nat)
    | NoWhiteKing
    | WhiteKings(kings: nat)
    | NoBlackKing
    | BlackKings(kings: nat)
    | RowCount(rows: nat)
    | RowCharacter(row: string)
    | RowSquares(squares: int, row: string)
    | ActivePlayer(field: string)
    | CastlingCharacter(field: string)
    | EnPassantCharacter(field: string)
    /** `strconv.Atoi`'s syntax error. */
    | NumberSyntax(field: string)
    /** A castling right without its king on its starting square and its rook on its corner (the corrected reading only). */
    | CastlingRook(field: string)
    /** An en passant target that is occupied or has no pawn beyond it (the corrected reading only). */
    | EnPassantPawn(field: string)

  /** What reading a record gives: a position, an error, or an index out of range (a Go panic). */
  datatype Parse = Parsed(pos: Position) | Failed(err: FenError) | Panicked

  // ---------------------------------------------------------------- placement

  /** What the placement loops fill in: `pos.b` and `pos.KingSquare`. */
  datatype Placement = Placement(b: Armies, ks: KingSquares)

  /** The zero Armies: no piece anywhere. */
  function NoArmies(): Armies
  {
    seq(2, _ => seq(8, _ => Empty()))
  }

  /** The zero Position's boards and king squares. */
  function Blank(): Placement
  {
    Placement(NoArmies(), [0, 0])
  }

  /**
   * One piece letter of a row: `b[c][p] ^= sq.Board()` and
   * `b[c][All] ^= sq.Board()`, which change nothing off the board, where
   * `sq.Board()` is the word 0; and a king also sets `KingSquare[c]`.
   */
  function Put(st: Placement, c: Color, p: Piece, sq: Square): Placement
    requires p.IsReal()
  {
    Placement(
      if sq < 64 then ToggleIn(st.b, c, p, sq) else st.b,
      if p == King then st.ks[c.Index() := sq] else st.ks)
  }

  /**
   * The second loop over a row's characters: a digit 1 to 8 adds its value
   * to sq, a piece letter is put on sq and moves sq on by one (both wrapping
   * at 256, `Square` being a byte), and any other character is an error.
   */
  function PlaceRow(st: Placement, s: string, sq: Square): Option<Placement>
    decreases |s|
  {
    if s == [] then Some(st)
    else if IsNumber(s[0]) then PlaceRow(st, s[1..], (sq + (s[0] as int - '0' as int)) % 256)
    else if s[0] !in RuneToColor then Nothing
    else
      RuneTables(s[0]);
      PlaceRow(Put(st, RuneToColor[s[0]], RuneToPiece[s[0]], sq), s[1..], (sq + 1) % 256)
  }

  /** The square row r starts on, `Square(56 - 8*r)`, wrapping at 256. */
  function RowStart(r: nat): Square
  {
    (56 - 8 * r) % 256
  }

  /** The result of placing the rows: the boards and king squares, or the first row with a bad character. */
  datatype Placing = Placed(st: Placement) | BadRow(err: FenError)

  /** The rows of the placement field, row r first, each placed from its starting square. */
  function PlaceRows(st: Placement, rows: seq<string>, r: nat): Placing
    decreases |rows|
  {
    if rows == [] then Placed(st)
    else match PlaceRow(st, rows[0], RowStart(r))
      case Nothing => BadRow(RowCharacter(rows[0]))
      case Some(next) => PlaceRows(next, rows[1..], r + 1)
  }

  // ---------------------------------------------------------------- the other fields

  /** A character the castling check lets through: '-' or a letter `RuneToPiece` reads as a queen or king. */
  predicate CastlingChar(ch: char)
  {
    ch == '-' || PieceOf(ch) == Queen || PieceOf(ch) == King
  }

  /** The castling field passes the check: `strings.IndexFunc` finds no other character. */
  predicate CastlingField(f: string)
  {
    forall i :: 0 <= i < |f| ==> CastlingChar(f[i])
  }

  /** The rights a castling character grants: a queen letter the queenside, a king letter the kingside. */
  function Grant(castle: Rights, ch: char): Rights
  {
    var c := ColorOf(ch).Index();
    if PieceOf(ch) == Queen then castle[c := castle[c][QS.Index() := true]]
    else if PieceOf(ch) == King then castle[c := castle[c][KS.Index() := true]]
    else castle
  }

  /** The castling loop: each character of f grants its right in turn. */
  function Grants(castle: Rights, f: string): Rights
    decreases |f|
  {
    if f == [] then castle else Grants(Grant(castle, f[0]), f[1..])
  }

  /** No castling rights, the zero value. */
  function NoRights(): Rights
  {
    [[false, false], [false, false]]
  }

  /** The letter of a castling right: K, Q for White and k, q for Black. */
  function RightChar(c: Color, side: Side): char
  {
    if c == White then (if side == KS then 'K' else 'Q') else (if side == KS then 'k' else 'q')
  }

  /** Each right the castling loop grants is one whose letter is in the field, and the other way round. */
  lemma {:induction false} GrantsIff(castle: Rights, f: string, c: Color, side: Side)
    ensures Grants(castle, f)[c.Index()][side.Index()] <==> castle[c.Index()][side.Index()] || RightChar(c, side) in f
    decreases |f|
  {
    if f != [] {
      GrantsIff(Grant(castle, f[0]), f[1..], c, side);
      assert f == [f[0]] + f[1..];
      assert RightChar(c, side) in f <==> RightChar(c, side) == f[0] || RightChar(c, side) in f[1..];
    }
  }

  /** A character the en passant check lets through: '-', a file letter, '3' or '6'. */
  predicate EnPassantChar(ch: char)
  {
    ch == '-' || ('a' <= ch <= 'h') || ch == '3' || ch == '6'
  }

  /** The en passant field passes the check: `strings.IndexFunc` finds no other character. */
  predicate EnPassantField(f: string)
  {
    forall i :: 0 <= i < |f| ==> EnPassantChar(f[i])
  }

  /**
   * `Square(8*(f[1]-'1') + f[0] - 'a')`: byte arithmetic on the first two
   * bytes of the field, which are its first two characters once the check
   * has passed, wrapping at 256.
   */
  function EnPassantSquare(f: string): Square
    requires |f| >= 2
  {
    (8 * (f[1] as int - '1' as int) + (f[0] as int - 'a' as int)) % 256
  }

  /** The name of a square is read back as that square. */
  lemma EnPassantSquareName(s: Square)
    requires s < 64
    ensures EnPassantSquare(SquareName(s)) == s
  {
  }

  /** The names of the squares the en passant check lets through are those on the third and sixth ranks. */
  lemma EnPassantFieldName(s: Square)
    requires s < 64
    ensures EnPassantField(SquareName(s)) <==> Rank(s) == 2 || Rank(s) == 5
  {
    var n := SquareName(s);
    assert EnPassantField(n) <==> EnPassantChar(n[0]) && EnPassantChar(n[1]);
  }

  // ---------------------------------------------------------------- ParseFEN as written

  /**
   * What `ParseFEN` returns. Its field-count, row-count and square-count
   * errors are assigned but not returned, and the error of the half-move
   * clock's `strconv.Atoi`, nil when it succeeds, replaces them; so they never
   * reach the caller. A missing field panics where it is first indexed, and
   * so does an en passant field of one character. `z` is left zero.
   */
  function ReadFen(fen: string): (r: Parse)
  {
    var fields := Fields(fen);
    if |fields| == 0 then Panicked
    else
      var wk, bk := Count(fields[0], 'K'), Count(fields[0], 'k');
      if wk == 0 then Failed(NoWhiteKing)
      else if wk > 1 then Failed(WhiteKings(wk))
      else if bk == 0 then Failed(NoBlackKing)
      else if bk > 1 then Failed(BlackKings(bk))
      else match PlaceRows(Blank(), Split(fields[0], '/'), 0)
        case BadRow(e) => Failed(e)
        case Placed(st) => ReadRest(fields, st)
  }

  /** The fields after the placement, as `ParseFEN` reads them. */
  function ReadRest(fields: seq<string>, st: Placement): (r: Parse)
  {
    if |fields| < 2 then Panicked
    else if fields[1] != "w" && fields[1] != "b" then Failed(ActivePlayer(fields[1]))
    else if |fields| < 3 then Panicked
    else if !CastlingField(fields[2]) then Failed(CastlingCharacter(fields[2]))
    else if |fields| < 4 then Panicked
    else if !EnPassantField(fields[3]) then Failed(EnPassantCharacter(fields[2]))
    else if fields[3] != "-" && |fields[3]| < 2 then Panicked
    else if |fields| < 5 then Panicked
    else match Atoi(fields[4])
      case Nothing => Failed(NumberSyntax(fields[4]))
      case Some(half) =>
        if |fields| < 6 then Panicked
        else match Atoi(fields[5])
          case Nothing => Failed(NumberSyntax(fields[5]))
          case Some(full) =>
            Parsed(Position(
              Grants(NoRights(), fields[2]),
              if fields[3] == "-" then 0 else EnPassantSquare(fields[3]),
              if fields[1] == "w" then White else Black,
              half, full, st.ks, st.b, Empty()))
  }

  /** `ParseFEN`. */
  method ParseFen(fen: string) returns (r: Parse)
    ensures r == ReadFen(fen)
  {
    hide Fields, Count, Split, PlaceRows, Grants, Atoi, CastlingField, EnPassantField, EnPassantSquare;
    var fields := Fields(fen);
    var err: Option<FenError> := Nothing;
    if |fields| != 6 {
      err := Some(FieldCount(|fields|));
    }
    if |fields| == 0 {
      return Panicked;
    }
    var wk, bk := Count(fields[0], 'K'), Count(fields[0], 'k');
    if wk == 0 {
      return Failed(NoWhiteKing);
    } else if wk > 1 {
      return Failed(WhiteKings(wk));
    } else if bk == 0 {
      return Failed(NoBlackKing);
    } else if bk > 1 {
      return Failed(BlackKings(bk));
    }
    var rows := Split(fields[0], '/');
    if |rows| != 8 {
      err := Some(RowCount(|rows|));
    }
    var placing, rowErr := PlaceField(rows);
    if rowErr.Some? {
      err := rowErr;
    }
    if placing.BadRow? {
      return Failed(placing.err);
    }
    var b, ks := placing.st.b, placing.st.ks;

    // side to move
    if |fields| < 2 {
      return Panicked;
    }
    var toMove: Color;
    if fields[1] == "w" {
      toMove := White;
    } else if fields[1] == "b" {
      toMove := Black;
    } else {
      return Failed(ActivePlayer(fields[1]));
    }

    // castling
    if |fields| < 3 {
      return Panicked;
    }
    if !CastlingField(fields[2]) {
      return Failed(CastlingCharacter(fields[2]));
    }
    var castle := CastlingRights(fields[2]);

    // en passant
    if |fields| < 4 {
      return Panicked;
    }
    if !EnPassantField(fields[3]) {
      return Failed(EnPassantCharacter(fields[2]));
    }
    var ep: Square := 0;
    if fields[3] != "-" {
      if |fields[3]| < 2 {
        return Panicked;
      }
      ep := (ep + EnPassantSquare(fields[3])) % 256;
    }

    // half-move clock
    if |fields| < 5 {
      return Panicked;
    }
    var half := Atoi(fields[4]);
    if half.Nothing? {
      return Failed(NumberSyntax(fields[4]));
    }
    err := Nothing;

    // full-move number
    if |fields| < 6 {
      return Panicked;
    }
    var full := Atoi(fields[5]);
    if full.Nothing? {
      return Failed(NumberSyntax(fields[5]));
    }
    err := Nothing;

    var pos := Position(castle, ep, toMove, half.value, full.value, ks, b, Empty());
    r := match err
      case Nothing => Parsed(pos)
      case Some(e) => Failed(e);
  }

  /**
   * The loop of `ParseFEN` over the rows of the placement field. For each
   * row, a first loop counts its squares into n, whose error when n is not 8
   * is returned in rowErr; a second loop places its pieces.
   */
  method PlaceField(rows: seq<string>) returns (res: Placing, rowErr: Option<FenError>)
    ensures res == PlaceRows(Blank(), rows, 0)
    ensures rowErr.Some? ==> rowErr.value.RowSquares? && rowErr.value.row in rows && rowErr.value.squares == CountedSquares(rowErr.value.row) != 8
  {
    rowErr := Nothing;
    var b: Armies, ks: KingSquares := NoArmies(), [0, 0];
    for r := 0 to |rows|
      invariant PlaceRows(Placement(b, ks), rows[r..], r) == PlaceRows(Blank(), rows, 0)
      invariant rowErr.Some? ==> rowErr.value.RowSquares? && rowErr.value.row in rows && rowErr.value.squares == CountedSquares(rowErr.value.row) != 8
    {
      var s := rows[r];
      // Every character is white or black, so n counts characters and the
      // other two cases never happen.
      CountedSquaresLength(s);
      var n := 0;
      for i := 0 to |s|
        invariant n == i
      {
        var ch := s[i];
        WhiteOrBlack(ch);
        if IsWhite(ch) || IsBlack(ch) {
          n := n + 1;
        } else if IsNumber(ch) {
          n := n + (ch as int - '1' as int);
        } else {
          return BadRow(RowCharacter(s)), rowErr;
        }
      }
      if n != 8 {
        rowErr := Some(RowSquares(n, s));
      }
      var placed := PlaceRowChars(Placement(b, ks), s, RowStart(r));
      if placed.Nothing? {
        assert rows[r..][0] == s;
        return BadRow(RowCharacter(s)), rowErr;
      }
      b, ks := placed.value.b, placed.value.ks;
      assert rows[r..][0] == s && rows[r..][1..] == rows[r + 1..];
    }

    res := Placed(Placement(b, ks));
  }

  /**
   * The second loop of `ParseFEN` over a row's characters, from square sq: a
   * digit moves sq on, a piece letter toggles the piece's boards at sq (and
   * sets its king square) and moves sq on by one; any other character stops
   * the loop with an error.
   */
  method PlaceRowChars(st: Placement, s: string, sq0: Square) returns (res: Option<Placement>)
    ensures res == PlaceRow(st, s, sq0)
  {
    var b, ks := st.b, st.ks;
    var sq: Square := sq0;
    for i := 0 to |s|
      invariant PlaceRow(Placement(b, ks), s[i..], sq) == PlaceRow(st, s, sq0)
    {
      var ch := s[i];
      assert s[i..][0] == ch && s[i..][1..] == s[i + 1..];
      ghost var here, sq1 := Placement(b, ks), sq;
      if IsNumber(ch) {
        sq := (sq + (ch as int - '0' as int)) % 256;
        assert PlaceRow(here, s[i..], sq1) == PlaceRow(here, s[i + 1..], sq);
        continue;
      }
      RuneTables(ch);
      if ch !in RuneToColor {
        return Nothing;
      }
      var c := RuneToColor[ch];
      if ch !in RuneToPiece {
        return Nothing;
      }
      var p := RuneToPiece[ch];
      if sq < 64 {
        b := ToggleIn(b, c, p, sq);
      }
      if p == King {
        ks := ks[c.Index() := sq];
      }
      sq := (sq + 1) % 256;
      assert Placement(b, ks) == Put(here, c, p, sq1);
      assert PlaceRow(here, s[i..], sq1) == PlaceRow(Placement(b, ks), s[i + 1..], sq);
    }
    assert s[|s|..] == [];
    return Some(Placement(b, ks));
  }

  /** The castling loop of `ParseFEN`: each character grants its right in turn. */
  method CastlingRights(f: string) returns (castle: Rights)
    ensures castle == Grants(NoRights(), f)
  {
    castle := NoRights();
    for i := 0 to |f|
      invariant Grants(castle, f[i..]) == Grants(NoRights(), f)
    {
      var ch := f[i];
      assert f[i..][0] == ch && f[i..][1..] == f[i + 1..];
      var c := ColorOf(ch).Index();
      if PieceOf(ch) == Queen {
        castle := castle[c := castle[c][QS.Index() := true]];
      } else if PieceOf(ch) == King {
        castle := castle[c := castle[c][KS.Index() := true]];
      }
    }
    assert f[|f|..] == [];
  }

  // ---------------------------------------------------------------- ParseFEN as its checks intend

  /** The squares a row covers: one per piece letter and d per digit d. */
  function Width(s: string): int
    decreases |s|
  {
    if s == [] then 0 else (if IsNumber(s[0]) then s[0] as int - '0' as int else 1) + Width(s[1..])
  }

  /** What the digit branch of the first row loop adds: `char - '1'`. */
  function DigitSquares(ch: char): int
  {
    ch as int - '1' as int
  }

  /**
   * The count the first row loop of `ParseFEN` computes: one for each white
   * or black character, and otherwise `DigitSquares` of a digit.
   */
  function CountedSquares(s: string): int
    decreases |s|
  {
    if s == [] then 0
    else (if IsWhite(s[0]) || IsBlack(s[0]) then 1 else if IsNumber(s[0]) then DigitSquares(s[0]) else 0) + CountedSquares(s[1..])
  }

  /** Every character is white or black, so the first row loop counts characters. */
  lemma {:induction false} CountedSquaresLength(s: string)
    ensures CountedSquares(s) == |s|
    decreases |s|
  {
    if s != [] {
      WhiteOrBlack(s[0]);
      CountedSquaresLength(s[1..]);
    }
  }

  /** Every character of a row is a piece letter or a digit 1 to 8. */
  predicate RowChars(s: string)
  {
    forall i :: 0 <= i < |s| ==> IsPieceLetter(s[i]) || IsNumber(s[i])
  }

  /** The first row with a character that is neither a piece letter nor a digit, or that does not cover eight squares. */
  function CheckRows(rows: seq<string>): (e: Option<FenError>)
    ensures e.Nothing? <==> forall k :: 0 <= k < |rows| ==> RowChars(rows[k]) && Width(rows[k]) == 8
    decreases |rows|
  {
    if rows == [] then Nothing
    else if !RowChars(rows[0]) then Some(RowCharacter(rows[0]))
    else if Width(rows[0]) != 8 then Some(RowSquares(Width(rows[0]), rows[0]))
    else
      var e := CheckRows(rows[1..]);
      assert forall k :: 1 <= k < |rows| ==> rows[k] == rows[1..][k - 1];
      e
  }

  /** An en passant target a record can name: none (0), or a square on the third or sixth rank. */
  predicate EnPassantRank(ep: Square)
  {
    ep == 0 || (ep < 64 && (Rank(ep) == 2 || Rank(ep) == 5))
  }

  /** A named target is on the third or sixth rank. */
  lemma EnPassantNameRank(f: string)
    requires EnPassantName(f)
    ensures EnPassantRank(if f == "-" then 0 else EnPassantSquare(f))
  {
  }

  /** An en passant field as its check and tests intend: "-", or a file letter and the digit 3 or 6. */
  predicate EnPassantName(f: string)
  {
    f == "-" || (|f| == 2 && 'a' <= f[0] <= 'h' && (f[1] == '3' || f[1] == '6'))
  }

  /** The boards the placement builds have each All board the XOR of its piece boards. */
  lemma {:induction false} PlaceRowConsistent(st: Placement, s: string, sq: Square)
    requires ArmyConsistent(st.b[0]) && ArmyConsistent(st.b[1]) && PlaceRow(st, s, sq).Some?
    ensures ArmyConsistent(PlaceRow(st, s, sq).value.b[0]) && ArmyConsistent(PlaceRow(st, s, sq).value.b[1])
    decreases |s|
  {
    if s != [] {
      if IsNumber(s[0]) {
        PlaceRowConsistent(st, s[1..], (sq + (s[0] as int - '0' as int)) % 256);
      } else {
        RuneTables(s[0]);
        var next := Put(st, RuneToColor[s[0]], RuneToPiece[s[0]], sq);
        if sq < 64 {
          ToggleInConsistent(st.b, RuneToColor[s[0]], RuneToPiece[s[0]], sq);
        }
        PlaceRowConsistent(next, s[1..], (sq + 1) % 256);
      }
    }
  }

  lemma {:induction false} PlaceRowsConsistent(st: Placement, rows: seq<string>, r: nat)
    requires ArmyConsistent(st.b[0]) && ArmyConsistent(st.b[1]) && PlaceRows(st, rows, r).Placed?
    ensures ArmyConsistent(PlaceRows(st, rows, r).st.b[0]) && ArmyConsistent(PlaceRows(st, rows, r).st.b[1])
    decreases |rows|
  {
    if rows != [] {
      PlaceRowConsistent(st, rows[0], RowStart(r));
      PlaceRowsConsistent(PlaceRow(st, rows[0], RowStart(r)).value, rows[1..], r + 1);
    }
  }

  /** The placement of a record, from blank boards, is consistent. */
  lemma PlacedConsistent(rows: seq<string>)
    requires PlaceRows(Blank(), rows, 0).Placed?
    ensures ArmyConsistent(PlaceRows(Blank(), rows, 0).st.b[0]) && ArmyConsistent(PlaceRows(Blank(), rows, 0).st.b[1])
  {
    assert ArmyConsistent(NoArmies()[0]) && ArmyConsistent(NoArmies()[1]);
    PlaceRowsConsistent(Blank(), rows, 0);
  }

  /** Whether the rights are backed and the en passant target placed does not depend on `z`. */
  lemma BackedIgnoresZ(pos: Position, z: Board)
    ensures RightsBacked(pos.(z := z)) == RightsBacked(pos) && EPPlaced(pos.(z := z)) == EPPlaced(pos)
  {
    var q := pos.(z := z);
    assert forall c: Color, p: Piece :: q.Pieces(c, p) == pos.Pieces(c, p);
    assert forall c: Color, side: Side :: q.Castle(c, side) == pos.Castle(c, side) && q.King(c) == pos.King(c);
  }

  /** The Zobrist bitstring of a position does not depend on the one it records. */
  lemma HashIgnoresZ(pos: Position, z: Board)
    requires Readable(pos)
    ensures Readable(pos.(z := z)) && Hash(pos.(z := z)) == Hash(pos)
  {
    var q := pos.(z := z);
    forall s: Square ensures PieceOnDefined(q, s) && (PieceOnDefined(pos, s) ==> PieceOn(q, s) == PieceOn(pos, s)) {
      PieceOnBoards(pos, q, s);
    }
    ReadableEPDefined(pos);
    ReadableEPDefined(q);
    assert EligibleEPCapturers(q) == EligibleEPCapturers(pos);
    SquaresHashSameBoards(pos, q, 64);
    hide Readable, PieceOn, PieceOnDefined, SquaresHash, EligibleEPCapturers, CastleHash, SideHash, EPDefined;
    assert EPHash(q) == EPHash(pos);
  }
  /** Each castling right held has its king on its starting square and its rook on its corner. */
  predicate RightsBacked(pos: Position)
  {
    RooksHome(pos) && forall c: Color, side: Side :: pos.Castle(c, side) ==> pos.King(c) == KingHome(c)
  }

  /**
   * `ParseFEN` with each error returned where it is found: six fields, eight
   * rows each covering eight squares with digits counted by value, an en
   * passant field that names a square on the third or sixth rank, the en
   * passant error naming that field, each castling right backed by its king
   * and rook, an en passant target left empty by a pawn that has just passed
   * over it, and `z` set to the position's Zobrist bitstring.
   */
  function ReadFenChecked(fen: string): (r: Parse)
    ensures r.Parsed? ==> |Fields(fen)| == 6 && Count(Fields(fen)[0], 'K') == 1 && Count(Fields(fen)[0], 'k') == 1
    ensures r.Parsed? ==> |Split(Fields(fen)[0], '/')| == 8 && CheckRows(Split(Fields(fen)[0], '/')) == Nothing
    ensures r.Parsed? ==> Readable(r.pos) && r.pos.z == Hash(r.pos) && EnPassantRank(r.pos.ep)
    ensures r.Parsed? ==> RightsBacked(r.pos) && EPPlaced(r.pos)
  {
    var fields := Fields(fen);
    if |fields| != 6 then Failed(FieldCount(|fields|))
    else
      var wk, bk := Count(fields[0], 'K'), Count(fields[0], 'k');
      if wk == 0 then Failed(NoWhiteKing)
      else if wk > 1 then Failed(WhiteKings(wk))
      else if bk == 0 then Failed(NoBlackKing)
      else if bk > 1 then Failed(BlackKings(bk))
      else
        var rows := Split(fields[0], '/');
        if |rows| != 8 then Failed(RowCount(|rows|))
        else match CheckRows(rows)
          case Some(e) => Failed(e)
          case Nothing =>
            match PlaceRows(Blank(), rows, 0)
            case BadRow(e) => Failed(e)
            case Placed(st) =>
              PlacedConsistent(rows);
              ReadRestChecked(fields, st)
  }

  /** The fields after the placement, as the checks of `ParseFEN` intend them to be read. */
  function ReadRestChecked(fields: seq<string>, st: Placement): (r: Parse)
    requires |fields| == 6 && ArmyConsistent(st.b[0]) && ArmyConsistent(st.b[1])
    ensures r.Parsed? ==> r.pos.b == st.b && r.pos.kingSquare == st.ks
    ensures r.Parsed? ==> Readable(r.pos) && r.pos.z == Hash(r.pos) && EnPassantRank(r.pos.ep)
    ensures r.Parsed? ==> Atoi(fields[4]) == Some(r.pos.halfMove) && Atoi(fields[5]) == Some(r.pos.fullMove)
    ensures r.Parsed? ==> RightsBacked(r.pos) && EPPlaced(r.pos)
  {
    if fields[1] != "w" && fields[1] != "b" then Failed(ActivePlayer(fields[1]))
    else if !CastlingField(fields[2]) then Failed(CastlingCharacter(fields[2]))
    else if !EnPassantName(fields[3]) then Failed(EnPassantCharacter(fields[3]))
    else match Atoi(fields[4])
      case Nothing => Failed(NumberSyntax(fields[4]))
      case Some(half) =>
        match Atoi(fields[5])
        case Nothing => Failed(NumberSyntax(fields[5]))
        case Some(full) =>
          var pos := Position(
            Grants(NoRights(), fields[2]),
            if fields[3] == "-" then 0 else EnPassantSquare(fields[3]),
            if fields[1] == "w" then White else Black,
            half, full, st.ks, st.b, Empty());
          if !RightsBacked(pos) then Failed(CastlingRook(fields[2]))
          else if !EPPlaced(pos) then Failed(EnPassantPawn(fields[3]))
          else
            ConsistentReadable(pos);
            HashIgnoresZ(pos, Hash(pos));
            BackedIgnoresZ(pos, Hash(pos));
            EnPassantNameRank(fields[3]);
            Parsed(pos.(z := Hash(pos)))
  }

  // ---------------------------------------------------------------- FEN

  /** What `PieceOn` tells of a square: its colour and piece, (White, None) when empty. */
  type Cell = (Color, Piece)

  /** The cells of the 64 squares. */
  function Mail(pos: Position): (m: seq<Cell>)
    requires Readable(pos)
    ensures |m| == 64
  {
    seq(64, s requires 0 <= s < 64 => PieceOn(pos, s))
  }

  /** The cell of square s is what `PieceOn` reports for s. */
  lemma MailAt(pos: Position, s: nat)
    requires Readable(pos) && s < 64
    ensures Mail(pos)[s] == PieceOn(pos, s)
  {
  }

  /** A pending run of gap empty squares: its length, or nothing when there is none. */
  function GapText(gap: nat): string
  {
    if gap != 0 then Itoa(gap) else ""
  }

  /**
   * The text of squares sq up to end of a rank after a run of gap empty
   * squares: each piece's letter, each maximal run of empty squares its length.
   */
  function RowText(mail: seq<Cell>, sq: nat, end: nat, gap: nat): string
    requires sq <= end <= |mail|
    decreases end - sq
  {
    if sq == end then GapText(gap)
    else if mail[sq].1 == None then RowText(mail, sq + 1, end, gap + 1)
    else GapText(gap) + PieceChar(mail[sq].0, mail[sq].1) + RowText(mail, sq + 1, end, 0)
  }

  /** The text of the rank `rank` (0 for rank 1). */
  function RankText(mail: seq<Cell>, rank: nat): string
    requires |mail| == 64 && rank < 8
  {
    RowText(mail, 8 * rank, 8 * rank + 8, 0)
  }

  /** The ranks' texts, rank 8 first. */
  function RankTexts(mail: seq<Cell>): (ts: seq<string>)
    requires |mail| == 64
    ensures |ts| == 8 && forall k :: 0 <= k < 8 ==> ts[k] == RankText(mail, 7 - k)
  {
    seq(8, k requires 0 <= k < 8 => RankText(mail, 7 - k))
  }

  /** The placement field: the ranks, 8 down to 1, separated by '/'. */
  function PlacementText(mail: seq<Cell>): string
    requires |mail| == 64
  {
    Join(RankTexts(mail), '/')
  }

  /** The castling field: K, Q, k, q for the rights held, in that order, or "-" for none. */
  function CastlingText(castle: Rights): string
  {
    (if castle[0][1] then "K" else "") + (if castle[0][0] then "Q" else "") +
    (if castle[1][1] then "k" else "") + (if castle[1][0] then "q" else "") +
    (if !(castle[0][1] || castle[0][0] || castle[1][1] || castle[1][0]) then "-" else "")
  }

  /** The en passant field: "-" for 0, else the target's name. */
  function EnPassantText(ep: Square): string
    requires ep < 64
  {
    if ep == 0 then "-" else SquareName(ep)
  }

  /** The six fields `FEN` writes. */
  function FenFields(pos: Position): (fs: seq<string>)
    requires Readable(pos) && pos.ep < 64
    ensures |fs| == 6
  {
    [PlacementText(Mail(pos)), if pos.toMove == White then "w" else "b", CastlingText(pos.castle),
     EnPassantText(pos.ep), Itoa(pos.halfMove), Itoa(pos.fullMove)]
  }

  /** What `FEN(pos)` returns: the six fields separated by single spaces. */
  function FenOf(pos: Position): string
    requires Readable(pos) && pos.ep < 64
  {
    Join(FenFields(pos), ' ')
  }

  /** The rank loops of `FEN`: each rank's pieces and gaps, rank 8 first, with '/' between ranks. */
  method PlacementField(pos: Position) returns (s: string)
    requires Readable(pos)
    ensures s == PlacementText(Mail(pos))
  {
    hide Mail, PieceOn, RowText, Join, PieceChar, Itoa, RankTexts;
    ghost var mail := Mail(pos);
    ghost var ranks := RankTexts(mail);
    s := "";
    var rank := 7;
    JoinEmpty('/');
    assert ranks[..0] == [];
    while rank >= 0
      invariant -1 <= rank <= 7
      invariant s == Join(ranks[..7 - rank], '/') + (if 0 <= rank < 7 then "/" else "")
    {
      var t := RankField(pos, rank);
      s := s + t;
      assert t == ranks[7 - rank];
      JoinStep(ranks, 7 - rank, '/');
      if rank != 0 {
        s := s + "/";
      }
      rank := rank - 1;
    }
    assert ranks[..8] == ranks;
  }

  /** The inner loop of `FEN`'s placement: one rank's pieces and gap digits, file a first. */
  method RankField(pos: Position, rank: nat) returns (s: string)
    requires Readable(pos) && rank < 8
    ensures s == RankText(Mail(pos), rank)
  {
    hide Mail, PieceOn, RowText, PieceChar, Itoa;
    ghost var mail := Mail(pos);
    ghost var end := 8 * rank + 8;
    assert RankText(mail, rank) == RowText(mail, 8 * rank, end, 0);
    hide RankText;
    s := "";
    var gap := 0;
    var sq := 8 * rank;
    while sq < 8 * (rank + 1)
      invariant 8 * rank <= sq <= end
      invariant s + RowText(mail, sq, end, gap) == RankText(mail, rank)
    {
      var (c, p) := PieceOn(pos, sq);
      var ok := p != None;
      MailAt(pos, sq);
      assert mail[sq] == (c, p);
      RowTextStep(mail, sq, end, gap);
      if ok {
        ghost var s1, g, rest := s, GapText(gap), RowText(mail, sq + 1, end, 0);
        if gap != 0 {
          s := s + Itoa(gap);
          gap := 0;
        }
        assert s == s1 + g;
        s := s + PieceChar(c, p);
        assert s + rest == s1 + (g + PieceChar(c, p) + rest);
      } else {
        gap := gap + 1;
      }
      sq := sq + 1;
    }
    if gap != 0 {
      s := s + Itoa(gap);
    }
    RowTextDone(mail, end, gap);
  }

  /** `FEN`. */
  method Fen(pos: Position) returns (s: string)
    requires Readable(pos) && pos.ep < 64
    ensures s == FenOf(pos)
  {
    hide Mail, PieceOn, Readable, RowText, Join, PieceChar, Itoa, SquareName, FenOf, FenFields, RankTexts, PlacementText;
    s := PlacementField(pos);
    ghost var placement := s;
    match pos.toMove {
      case White => s := s + " w ";
      case Black => s := s + " b ";
    }
    ghost var side := s;
    assert side == placement + " " + (if pos.toMove == White then "w" else "b") + " ";
    var rights := "";
    if pos.castle[0][1] {
      rights := rights + "K";
    }
    if pos.castle[0][0] {
      rights := rights + "Q";
    }
    if pos.castle[1][1] {
      rights := rights + "k";
    }
    if pos.castle[1][0] {
      rights := rights + "q";
    }
    if !(pos.castle[0][1] || pos.castle[0][0] || pos.castle[1][1] || pos.castle[1][0]) {
      rights := rights + "-";
    }
    assert rights == CastlingText(pos.castle);
    s := s + rights;
    ghost var castling := s;
    if pos.ep == 0 {
      s := s + " - ";
    } else {
      s := s + " " + SquareName(pos.ep) + " ";
    }
    assert s == castling + " " + EnPassantText(pos.ep) + " ";
    s := s + Itoa(pos.halfMove) + " " + Itoa(pos.fullMove);
    FenOfFields(pos);
  }

  /** One square of a rank's text. */
  lemma RowTextStep(mail: seq<Cell>, sq: nat, end: nat, gap: nat)
    requires sq < end <= |mail|
    ensures RowText(mail, sq, end, gap) ==
      if mail[sq].1 == None then RowText(mail, sq + 1, end, gap + 1)
      else GapText(gap) + PieceChar(mail[sq].0, mail[sq].1) + RowText(mail, sq + 1, end, 0)
  {
  }

  /** The end of a rank's text. */
  lemma RowTextDone(mail: seq<Cell>, end: nat, gap: nat)
    requires end <= |mail|
    ensures RowText(mail, end, end, gap) == GapText(gap)
  {
  }

  /** The six fields written out with their spaces. */
  lemma FenOfFields(pos: Position)
    requires Readable(pos) && pos.ep < 64
    ensures FenOf(pos) == PlacementText(Mail(pos)) + " " + (if pos.toMove == White then "w" else "b") + " " +
      CastlingText(pos.castle) + " " + EnPassantText(pos.ep) + " " + Itoa(pos.halfMove) + " " + Itoa(pos.fullMove)
  {
    hide PlacementText, Mail, CastlingText, EnPassantText, Itoa, Join;
    JoinSix(PlacementText(Mail(pos)), if pos.toMove == White then "w" else "b", CastlingText(pos.castle),
      EnPassantText(pos.ep), Itoa(pos.halfMove), Itoa(pos.fullMove), ' ');
  }
}

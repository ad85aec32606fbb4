/**
 * What `FEN` writes, `ParseFEN` reads back. A position whose record says
 * everything about it (both armies on the board, one king of each colour,
 * nothing in the None boards, an en passant target on the third or sixth rank
 * or none) is read back by the corrected reader exactly, and by `ParseFEN` as
 * written with its Zobrist bitstring left zero.
 *
 * The placement is followed square by square: `Partial(pos, lo, sq)` is what
 * the row loop has built once it has placed the ranks above the one starting
 * at square lo and the squares lo up to sq of that rank.
 */
module FenRoundTrip {
  import opened Bits
  import opened Chess
  import opened Moves
  import opened Attacks
  import opened Zobrist
  import opened Decimal
  import opened Strings
  import opened Notation
  import opened Fen
  import opened Invariants

  /**
   * A position a FEN record describes fully: valid, with no piece in either
   * None board, exactly one king of each colour standing on its `KingSquare`,
   * each castling right backed by its king and rook, and an en passant target
   * that is none (0), or an empty square on the third or sixth rank with the
   * pawn that passed over it beyond. `Readable` follows from `Valid` and is
   * listed for the functions that read the board.
   */
  predicate Describable(pos: Position)
  {
    Readable(pos) && Valid(pos) &&
    pos.b[0][0] == Empty() && pos.b[1][0] == Empty() &&
    (forall c: Color :: pos.King(c) < 64) &&
    (forall c: Color, s: Square :: Has(pos.Pieces(c, King), s) <==> s == pos.King(c)) &&
    EnPassantRank(pos.ep) && RightsBacked(pos) && EPPlaced(pos)
  }

  // ---------------------------------------------------------------- the squares of a describable position

  lemma DescribableReadable(pos: Position)
    requires Describable(pos)
    ensures Readable(pos)
  {
  }

  /** What a square's cell says of the boards: an empty square is in none, a piece's square in its own two. */
  lemma Cell(pos: Position, t: nat)
    requires Describable(pos) && t < 64
    ensures Mail(pos)[t].1 != All
    ensures forall k, i :: 0 <= k < 2 && 0 <= i < 8 ==>
      (pos.b[k][i][t] <==> Mail(pos)[t].1 != None && k == Mail(pos)[t].0.Index() && (i == Mail(pos)[t].1.Index() || i == 7))
  {
    var (c, p) := PieceOn(pos, t);
    MailAt(pos, t);
    assert ValidAt(pos, t);
    assert Has(pos.b[0][7], t) == pos.b[0][7][t] && Has(pos.b[1][7], t) == pos.b[1][7][t];
    if p != None {
      assert Has(pos.Pieces(c, p), t);
    }
  }

  /** The king of c is where its `KingSquare` says and nowhere else. */
  lemma KingCell(pos: Position, t: nat, c: Color)
    requires Describable(pos) && t < 64
    ensures Mail(pos)[t] == (c, King) <==> t == pos.King(c)
  {
    Cell(pos, t);
    assert Has(pos.Pieces(c, King), t) <==> t == pos.King(c);
    assert Has(pos.Pieces(c, King), t) == pos.b[c.Index()][6][t];
    if t == pos.King(c) {
      var (d, p) := Mail(pos)[t];
      assert p != None && c.Index() == d.Index();
      assert p.Index() == 6;
    }
  }

  // ---------------------------------------------------------------- what the row loop has built

  /** The squares placed: lo up to sq in the current rank and every rank above it. */
  predicate Done(lo: int, sq: int, t: int)
  {
    lo <= t < sq || lo + 8 <= t
  }

  /** The boards and king squares of pos restricted to the squares placed. */
  function Partial(pos: Position, lo: int, sq: int): Placement
  {
    Placement(
      seq(2, k requires 0 <= k < 2 =>
        seq(8, i requires 0 <= i < 8 =>
          seq(64, t requires 0 <= t < 64 => Done(lo, sq, t) && pos.b[k][i][t]))),
      seq(2, k requires 0 <= k < 2 => if Done(lo, sq, pos.kingSquare[k]) then pos.kingSquare[k] else 0))
  }

  /** A placed square holds what it holds in pos, any other nothing; a king square is kept once placed. */
  lemma PartialAt(pos: Position, lo: int, sq: int)
    ensures forall k, i, t :: 0 <= k < 2 && 0 <= i < 8 && 0 <= t < 64 ==>
      Partial(pos, lo, sq).b[k][i][t] == (Done(lo, sq, t) && pos.b[k][i][t])
    ensures forall k :: 0 <= k < 2 ==>
      Partial(pos, lo, sq).ks[k] == if Done(lo, sq, pos.kingSquare[k]) then pos.kingSquare[k] else 0
  {
    var p := Partial(pos, lo, sq);
    forall k, i, t | 0 <= k < 2 && 0 <= i < 8 && 0 <= t < 64
      ensures p.b[k][i][t] == (Done(lo, sq, t) && pos.b[k][i][t])
    {
      var army := seq(8, i requires 0 <= i < 8 =>
        seq(64, t requires 0 <= t < 64 => Done(lo, sq, t) && pos.b[k][i][t]));
      assert p.b[k] == army;
      assert army[i] == seq(64, t requires 0 <= t < 64 => Done(lo, sq, t) && pos.b[k][i][t]);
    }
    forall k | 0 <= k < 2
      ensures p.ks[k] == if Done(lo, sq, pos.kingSquare[k]) then pos.kingSquare[k] else 0
    {
    }
  }

  /** Placements are equal when their boards agree square by square and their king squares agree. */
  lemma PlacementExt(x: Placement, y: Placement)
    requires forall k, i, t :: 0 <= k < 2 && 0 <= i < 8 && 0 <= t < 64 ==> x.b[k][i][t] == y.b[k][i][t]
    requires x.ks == y.ks
    ensures x == y
  {
    forall k, i | 0 <= k < 2 && 0 <= i < 8
      ensures x.b[k][i] == y.b[k][i]
    {
      assert forall t :: 0 <= t < 64 ==> x.b[k][i][t] == y.b[k][i][t];
    }
    forall k | 0 <= k < 2
      ensures x.b[k] == y.b[k]
    {
      assert forall i :: 0 <= i < 8 ==> x.b[k][i] == y.b[k][i];
    }
    assert x.b == y.b;
  }

  /** Two descriptions of the same squares placed give the same placement. */
  lemma PartialSame(pos: Position, lo: int, sq: int, lo': int, sq': int)
    requires Describable(pos)
    requires forall t :: 0 <= t < 64 ==> (Done(lo, sq, t) <==> Done(lo', sq', t))
    ensures Partial(pos, lo, sq) == Partial(pos, lo', sq')
  {
    var x, y := Partial(pos, lo, sq), Partial(pos, lo', sq');
    PartialAt(pos, lo, sq);
    PartialAt(pos, lo', sq');
    assert pos.King(White) < 64 && pos.King(Black) < 64;
    assert x.ks == y.ks;
    PlacementExt(x, y);
  }

  /** Before the first rank nothing is placed: the zero boards and king squares. */
  lemma PartialBlank(pos: Position)
    requires Describable(pos)
    ensures Partial(pos, 56, 56) == Blank()
  {
    var x := Partial(pos, 56, 56);
    PartialAt(pos, 56, 56);
    assert pos.King(White) < 64 && pos.King(Black) < 64;
    assert x.ks == [0, 0];
    PlacementExt(x, Blank());
  }

  /** After the last rank everything is placed: the position's boards and king squares. */
  lemma PartialAll(pos: Position)
    requires Describable(pos)
    ensures Partial(pos, -8, -8) == Placement(pos.b, pos.kingSquare)
  {
    var x := Partial(pos, -8, -8);
    PartialAt(pos, -8, -8);
    assert x.ks == pos.kingSquare;
    PlacementExt(x, Placement(pos.b, pos.kingSquare));
  }

  /** Passing over empty squares places nothing. */
  lemma SkipEmpty(pos: Position, lo: int, a: int, b: int)
    requires Describable(pos) && 0 <= lo <= a <= b <= lo + 8 <= 64
    requires forall t :: a <= t < b ==> Mail(pos)[t].1 == None
    ensures Partial(pos, lo, a) == Partial(pos, lo, b)
  {
    SkipBoards(pos, lo, a, b);
    assert pos.King(White) < 64 && pos.King(Black) < 64;
    KingCell(pos, pos.King(White), White);
    KingCell(pos, pos.King(Black), Black);
    SkipKings(pos, lo, a, b);
    PlacementExt(Partial(pos, lo, a), Partial(pos, lo, b));
  }

  /** Empty squares are in no board. */
  lemma SkipBoards(pos: Position, lo: int, a: int, b: int)
    requires Describable(pos) && 0 <= lo <= a <= b <= lo + 8 <= 64
    requires forall t :: a <= t < b ==> Mail(pos)[t].1 == None
    ensures forall k, i, t :: 0 <= k < 2 && 0 <= i < 8 && 0 <= t < 64 ==>
      Partial(pos, lo, a).b[k][i][t] == Partial(pos, lo, b).b[k][i][t]
  {
    PartialAt(pos, lo, a);
    PartialAt(pos, lo, b);
    hide Mail, PieceOn, Readable, Valid, Describable, Partial;
    forall k, i, t | 0 <= k < 2 && 0 <= i < 8 && 0 <= t < 64
      ensures Partial(pos, lo, a).b[k][i][t] == Partial(pos, lo, b).b[k][i][t]
    {
      if a <= t < b {
        Cell(pos, t);
        assert !pos.b[k][i][t];
      } else {
        assert Done(lo, a, t) == Done(lo, b, t);
      }
    }
  }

  /** No king stands on an empty square. */
  lemma SkipKings(pos: Position, lo: int, a: int, b: int)
    requires Readable(pos) && 0 <= lo <= a <= b <= lo + 8 <= 64
    requires forall k :: 0 <= k < 2 ==> pos.kingSquare[k] < 64 && Mail(pos)[pos.kingSquare[k]].1 == King
    requires forall t :: a <= t < b ==> Mail(pos)[t].1 == None
    ensures Partial(pos, lo, a).ks == Partial(pos, lo, b).ks
  {
    PartialAt(pos, lo, a);
    PartialAt(pos, lo, b);
    hide Mail, PieceOn, Readable, Partial;
    var w, k := pos.kingSquare[0], pos.kingSquare[1];
    assert Done(lo, a, w) == Done(lo, b, w) && Done(lo, a, k) == Done(lo, b, k);
  }

  /** Putting the piece of the next square sets that square in its two boards and nowhere else. */
  lemma PutBoards(pos: Position, lo: int, sq: nat)
    requires Readable(pos) && 0 <= lo <= sq < lo + 8 <= 64
    requires Mail(pos)[sq].1.IsReal()
    requires forall k, i :: 0 <= k < 2 && 0 <= i < 8 ==>
      (pos.b[k][i][sq] <==> k == Mail(pos)[sq].0.Index() && (i == Mail(pos)[sq].1.Index() || i == 7))
    ensures forall k, i, t :: 0 <= k < 2 && 0 <= i < 8 && 0 <= t < 64 ==>
      Put(Partial(pos, lo, sq), Mail(pos)[sq].0, Mail(pos)[sq].1, sq).b[k][i][t] == Partial(pos, lo, sq + 1).b[k][i][t]
  {
    var (c, p) := Mail(pos)[sq];
    PartialAt(pos, lo, sq);
    PartialAt(pos, lo, sq + 1);
    hide Mail, PieceOn, Readable, Partial;
    var a := Partial(pos, lo, sq).b;
    var x, y := Put(Partial(pos, lo, sq), c, p, sq), Partial(pos, lo, sq + 1);
    assert x.b == a[c.Index() := ArmyToggle(a[c.Index()], p, sq)];
    forall k, i, t | 0 <= k < 2 && 0 <= i < 8 && 0 <= t < 64
      ensures x.b[k][i][t] == y.b[k][i][t]
    {
      if k == c.Index() {
        assert x.b[k][i][t] == (a[k][i][t] != (t == sq && (i == p.Index() || i == 7)));
      } else {
        assert x.b[k] == a[k];
      }
    }
  }

  /** Putting a king sets its colour's king square; no other piece moves a king square. */
  lemma PutKings(pos: Position, lo: int, sq: nat)
    requires Readable(pos) && 0 <= lo <= sq < lo + 8 <= 64
    requires Mail(pos)[sq].1.IsReal()
    requires forall k :: 0 <= k < 2 ==>
      pos.kingSquare[k] < 64 && (pos.kingSquare[k] == sq <==> Mail(pos)[sq].1 == King && Mail(pos)[sq].0.Index() == k)
    ensures Put(Partial(pos, lo, sq), Mail(pos)[sq].0, Mail(pos)[sq].1, sq).ks == Partial(pos, lo, sq + 1).ks
  {
    var (c, p) := Mail(pos)[sq];
    PartialAt(pos, lo, sq);
    PartialAt(pos, lo, sq + 1);
    hide Mail, PieceOn, Readable, Partial;
    var x, y := Put(Partial(pos, lo, sq), c, p, sq), Partial(pos, lo, sq + 1);
    forall k | 0 <= k < 2
      ensures x.ks[k] == y.ks[k]
    {
    }
  }

  /** Putting the piece of the next square places that square. */
  lemma PutStep(pos: Position, lo: int, sq: nat)
    requires Describable(pos) && 0 <= lo <= sq < lo + 8 <= 64
    requires Mail(pos)[sq].1 != None
    ensures Mail(pos)[sq].1.IsReal()
    ensures Put(Partial(pos, lo, sq), Mail(pos)[sq].0, Mail(pos)[sq].1, sq) == Partial(pos, lo, sq + 1)
  {
    Cell(pos, sq);
    KingCell(pos, sq, White);
    KingCell(pos, sq, Black);
    assert pos.King(White) < 64 && pos.King(Black) < 64;
    PutBoards(pos, lo, sq);
    PutKings(pos, lo, sq);
    PlacementExt(Put(Partial(pos, lo, sq), Mail(pos)[sq].0, Mail(pos)[sq].1, sq), Partial(pos, lo, sq + 1));
  }

  // ---------------------------------------------------------------- reading a rank's text back

  /** A run of one to eight empty squares is written as one digit, which `isNumber` accepts. */
  lemma GapDigit(gap: nat)
    requires 0 < gap <= 8
    ensures GapText(gap) == [DigitChar(gap)] && IsNumber(DigitChar(gap))
  {
  }

  /** The row loop reads a gap's digit as a move of that many squares. */
  lemma PlaceGap(st: Placement, gap: nat, rest: string, sq: Square)
    requires 0 < gap <= 8 && sq + gap < 256
    ensures PlaceRow(st, GapText(gap) + rest, sq) == PlaceRow(st, rest, sq + gap)
  {
    hide Put, ToggleIn, ArmyToggle;
    GapDigit(gap);
    assert (GapText(gap) + rest)[0] == DigitChar(gap);
    assert (GapText(gap) + rest)[1..] == rest;
  }

  /** The row loop reads a piece letter as a piece put on the square. */
  lemma PlaceLetter(st: Placement, ch: char, rest: string, sq: Square)
    requires IsPieceLetter(ch)
    ensures ch in RuneToColor && ch in RuneToPiece && RuneToPiece[ch].IsReal()
    ensures PlaceRow(st, [ch] + rest, sq) == PlaceRow(Put(st, RuneToColor[ch], RuneToPiece[ch], sq), rest, (sq + 1) % 256)
  {
    hide Put, ToggleIn, ArmyToggle;
    RuneTables(ch);
    assert ([ch] + rest)[0] == ch && ([ch] + rest)[1..] == rest;
  }

  /** The row loop reads a piece's letter as that piece put on the square. */
  lemma PlacePiece(st: Placement, c: Color, p: Piece, rest: string, sq: Square)
    requires p.IsReal()
    ensures PlaceRow(st, PieceChar(c, p) + rest, sq) == PlaceRow(Put(st, c, p, sq), rest, (sq + 1) % 256)
  {
    hide *;
    PieceCharRunes(c, p);
    var ch := PieceChar(c, p)[0];
    assert PieceChar(c, p) == [ch];
    PlaceLetter(st, ch, rest, sq);
  }

  /**
   * The text of squares sq up to the end of a rank, after a run of gap empty
   * squares, is read from the start of that run into the whole rank placed.
   */
  lemma {:induction false} PlaceRowText(pos: Position, lo: int, sq: nat, gap: nat)
    requires Describable(pos) && 0 <= lo && lo + 8 <= 64 && lo <= sq - gap && sq <= lo + 8
    requires forall t :: sq - gap <= t < sq ==> Mail(pos)[t].1 == None
    ensures PlaceRow(Partial(pos, lo, sq - gap), RowText(Mail(pos), sq, lo + 8, gap), sq - gap) == Some(Partial(pos, lo, lo + 8))
    decreases lo + 8 - sq, 1
  {
    DescribableReadable(pos);
    hide *;
    if sq == lo + 8 {
      PlaceRowEnd(pos, lo, gap);
    } else if Mail(pos)[sq].1 == None {
      PlaceRowSkip(pos, lo, sq, gap);
    } else {
      PlaceRowNext(pos, lo, sq, gap);
    }
  }

  /** An empty square: the run grows by one and the rest of the rank is read. */
  lemma {:induction false} PlaceRowSkip(pos: Position, lo: int, sq: nat, gap: nat)
    requires Describable(pos) && 0 <= lo && lo + 8 <= 64 && lo <= sq - gap && sq < lo + 8
    requires forall t :: sq - gap <= t <= sq ==> Mail(pos)[t].1 == None
    ensures PlaceRow(Partial(pos, lo, sq - gap), RowText(Mail(pos), sq, lo + 8, gap), sq - gap) == Some(Partial(pos, lo, lo + 8))
    decreases lo + 8 - sq, 0
  {
    DescribableReadable(pos);
    hide *;
    RowTextSkip(Mail(pos), sq, lo + 8, gap);
    PlaceRowText(pos, lo, sq + 1, gap + 1);
  }

  /** A square with a piece: the rest of the rank is read, and then the run and the piece before it. */
  lemma {:induction false} PlaceRowNext(pos: Position, lo: int, sq: nat, gap: nat)
    requires Describable(pos) && 0 <= lo && lo + 8 <= 64 && lo <= sq - gap && sq < lo + 8
    requires forall t :: sq - gap <= t < sq ==> Mail(pos)[t].1 == None
    requires Mail(pos)[sq].1 != None
    ensures PlaceRow(Partial(pos, lo, sq - gap), RowText(Mail(pos), sq, lo + 8, gap), sq - gap) == Some(Partial(pos, lo, lo + 8))
    decreases lo + 8 - sq, 0
  {
    hide *;
    PlaceRowText(pos, lo, sq + 1, 0);
    PlaceRowPiece(pos, lo, sq, gap);
  }

  /** The end of a rank: the last run of empty squares, if any, is skipped. */
  lemma PlaceRowEnd(pos: Position, lo: int, gap: nat)
    requires Describable(pos) && 0 <= lo && lo + 8 <= 64 && gap <= 8
    requires forall t :: lo + 8 - gap <= t < lo + 8 ==> Mail(pos)[t].1 == None
    ensures PlaceRow(Partial(pos, lo, lo + 8 - gap), RowText(Mail(pos), lo + 8, lo + 8, gap), lo + 8 - gap) == Some(Partial(pos, lo, lo + 8))
  {
    var mail := Mail(pos);
    hide *;
    var start: Square := lo + 8 - gap;
    var st := Partial(pos, lo, start);
    RowTextDone(mail, lo + 8, gap);
    if gap > 0 {
      PlaceGap(st, gap, "", start);
      assert GapText(gap) + "" == GapText(gap);
      SkipEmpty(pos, lo, start, lo + 8);
      PlaceRowEmpty(st, start + gap);
    } else {
      GapEmpty();
      PlaceRowEmpty(st, start);
    }
  }

  /** A piece after a run of empty squares: the run is skipped, the piece put, and the rest of the rank read. */
  lemma PlaceRowPiece(pos: Position, lo: int, sq: nat, gap: nat)
    requires Describable(pos) && 0 <= lo && lo + 8 <= 64 && lo <= sq - gap && sq < lo + 8
    requires forall t :: sq - gap <= t < sq ==> Mail(pos)[t].1 == None
    requires Mail(pos)[sq].1 != None
    requires PlaceRow(Partial(pos, lo, sq + 1), RowText(Mail(pos), sq + 1, lo + 8, 0), sq + 1) == Some(Partial(pos, lo, lo + 8))
    ensures PlaceRow(Partial(pos, lo, sq - gap), RowText(Mail(pos), sq, lo + 8, gap), sq - gap) == Some(Partial(pos, lo, lo + 8))
  {
    hide *;
    DescribableReadable(pos);
    var mail := Mail(pos);
    var start: Square := sq - gap;
    var c, p := mail[sq].0, mail[sq].1;
    var rest := RowText(mail, sq + 1, lo + 8, 0);
    var st, next := Partial(pos, lo, start), Partial(pos, lo, sq + 1);
    assert RowText(mail, sq, lo + 8, gap) == GapText(gap) + (PieceChar(c, p) + rest) by {
      RowTextPut(mail, sq, lo + 8, gap);
    }
    assert st == Partial(pos, lo, sq) by {
      SkipEmpty(pos, lo, start, sq);
    }
    assert p.IsReal() && Put(Partial(pos, lo, sq), c, p, sq) == next by {
      PutStep(pos, lo, sq);
    }
    PlaceGapPiece(st, c, p, rest, start, gap, sq);
  }

  /** One square of a rank's text: an empty square lengthens the run. */
  lemma RowTextSkip(mail: seq<Cell>, sq: nat, end: nat, gap: nat)
    requires sq < end <= |mail| && mail[sq].1 == None
    ensures RowText(mail, sq, end, gap) == RowText(mail, sq + 1, end, gap + 1)
  {
  }

  /** One square of a rank's text: a piece ends the run and writes its letter. */
  lemma RowTextPut(mail: seq<Cell>, sq: nat, end: nat, gap: nat)
    requires sq < end <= |mail| && mail[sq].1 != None
    ensures RowText(mail, sq, end, gap) == GapText(gap) + (PieceChar(mail[sq].0, mail[sq].1) + RowText(mail, sq + 1, end, 0))
  {
  }

  /** A run's digit, if any, and then a piece's letter: the piece is put on the square after the run. */
  lemma PlaceGapPiece(st: Placement, c: Color, p: Piece, rest: string, start: Square, gap: nat, sq: Square)
    requires p.IsReal() && gap <= 8 && start + gap == sq < 255
    ensures PlaceRow(st, GapText(gap) + (PieceChar(c, p) + rest), start) == PlaceRow(Put(st, c, p, sq), rest, sq + 1)
  {
    hide *;
    PlacePiece(st, c, p, rest, sq);
    if gap > 0 {
      PlaceGap(st, gap, PieceChar(c, p) + rest, start);
    } else {
      GapEmpty();
      assert GapText(gap) + (PieceChar(c, p) + rest) == PieceChar(c, p) + rest;
    }
  }

  /** Nothing left of a row places nothing more. */
  lemma PlaceRowEmpty(st: Placement, sq: Square)
    ensures PlaceRow(st, "", sq) == Some(st)
  {
  }

  lemma GapEmpty()
    ensures GapText(0) == ""
  {
  }

  // ---------------------------------------------------------------- reading the ranks back

  /** Rows each of which turns one placement into the next are placed into the last. */
  lemma {:induction false} PlaceChain(rows: seq<string>, parts: seq<Placement>, r: nat)
    requires |rows| == 8 && |parts| == 9 && r <= 8
    requires forall k :: 0 <= k < 8 ==> PlaceRow(parts[k], rows[k], RowStart(k)) == Some(parts[k + 1])
    ensures PlaceRows(parts[r], rows[r..], r) == Placed(parts[8])
    decreases 8 - r
  {
    hide *;
    if r == 8 {
      assert rows[r..] == [];
      PlaceRowsDone(parts[8], 8);
    } else {
      PlaceChain(rows, parts, r + 1);
      assert rows[r..][0] == rows[r] && rows[r..][1..] == rows[r + 1..];
      PlaceRowsStep(parts[r], rows[r..], r, parts[r + 1]);
    }
  }

  /** The text of rank 7 - k, read from its first square over the ranks above it, places that rank too. */
  lemma PlaceRank(pos: Position, k: nat)
    requires Describable(pos) && k < 8
    ensures PlaceRow(Partial(pos, 56 - 8 * k, 56 - 8 * k), RankTexts(Mail(pos))[k], RowStart(k)) ==
      Some(Partial(pos, 48 - 8 * k, 48 - 8 * k))
  {
    var mail := Mail(pos);
    var lo := 56 - 8 * k;
    RankRow(mail, k);
    PlaceRowText(pos, lo, lo, 0);
    PartialSame(pos, lo, lo + 8, lo - 8, lo - 8);
  }

  /** Row r of the placement field is the text of rank 7 - r, which starts on square 56 - 8r. */
  lemma RankRow(mail: seq<Cell>, r: nat)
    requires |mail| == 64 && r < 8
    ensures RankTexts(mail)[r] == RowText(mail, 56 - 8 * r, 64 - 8 * r, 0)
    ensures RowStart(r) == 56 - 8 * r
  {
  }

  /** No rows left: the placement is done. */
  lemma PlaceRowsDone(st: Placement, r: nat)
    ensures PlaceRows(st, [], r) == Placed(st)
  {
  }

  /** One row placed, then the rest. */
  lemma PlaceRowsStep(st: Placement, rows: seq<string>, r: nat, next: Placement)
    requires rows != [] && PlaceRow(st, rows[0], RowStart(r)) == Some(next)
    ensures PlaceRows(st, rows, r) == PlaceRows(next, rows[1..], r + 1)
  {
  }

  /** The placement field of a describable position is placed into its boards and king squares. */
  lemma PlacementRead(pos: Position)
    requires Describable(pos)
    ensures PlaceRows(Blank(), RankTexts(Mail(pos)), 0) == Placed(Placement(pos.b, pos.kingSquare))
  {
    hide *;
    DescribableReadable(pos);
    var rows := RankTexts(Mail(pos));
    var parts := seq(9, k requires 0 <= k < 9 => Partial(pos, 56 - 8 * k, 56 - 8 * k));
    forall k | 0 <= k < 8
      ensures PlaceRow(parts[k], rows[k], RowStart(k)) == Some(parts[k + 1])
    {
      PlaceRank(pos, k);
      assert parts[k] == Partial(pos, 56 - 8 * k, 56 - 8 * k);
      assert parts[k + 1] == Partial(pos, 48 - 8 * k, 48 - 8 * k);
    }
    PlaceChain(rows, parts, 0);
    PartialBlank(pos);
    PartialAll(pos);
    assert rows[0..] == rows;
  }

  // ---------------------------------------------------------------- the shape of the ranks' texts

  /** Widths add up over concatenation. */
  lemma {:induction false} WidthConcat(a: string, b: string)
    ensures Width(a + b) == Width(a) + Width(b)
    decreases |a|
  {
    if a == [] {
      assert a + b == b;
    } else {
      WidthConcat(a[1..], b);
      assert (a + b)[0] == a[0] && (a + b)[1..] == a[1..] + b;
    }
  }

  /** A run's digit covers the run. */
  lemma GapShape(gap: nat)
    requires gap <= 8
    ensures RowChars(GapText(gap)) && Width(GapText(gap)) == gap
  {
    if gap > 0 {
      GapDigit(gap);
      assert Width(GapText(gap)) == gap + Width([]);
    }
  }

  /** A piece's letter covers one square. */
  lemma LetterShape(c: Color, p: Piece)
    requires p.IsReal()
    ensures RowChars(PieceChar(c, p)) && Width(PieceChar(c, p)) == 1
  {
    PieceCharRunes(c, p);
    var ch := PieceChar(c, p)[0];
    assert PieceChar(c, p) == [ch];
    hide PieceChar, ToLower, PieceLetter;
    assert !IsNumber(ch);
    assert Width([ch]) == 1 + Width([]);
  }

  /** Both halves of a concatenation are rows of piece letters and digits. */
  lemma RowCharsConcat(a: string, b: string)
    requires RowChars(a) && RowChars(b)
    ensures RowChars(a + b)
  {
    forall i | 0 <= i < |a + b| ensures IsPieceLetter((a + b)[i]) || IsNumber((a + b)[i]) {
      if i >= |a| {
        assert (a + b)[i] == b[i - |a|];
      }
    }
  }

  /**
   * The text of squares sq up to end after a run of gap empty squares holds
   * only piece letters and digits 1 to 8, and covers the run and the squares.
   */
  lemma {:induction false} RowTextShape(mail: seq<Cell>, sq: nat, end: nat, gap: nat)
    requires sq <= end <= |mail| && gap + (end - sq) <= 8
    requires forall t :: sq <= t < end ==> mail[t].1 != All
    ensures RowChars(RowText(mail, sq, end, gap)) && Width(RowText(mail, sq, end, gap)) == gap + (end - sq)
    decreases end - sq
  {
    hide RowText, RowChars, Width, GapText, PieceChar;
    if sq == end {
      RowTextDone(mail, end, gap);
      GapShape(gap);
    } else if mail[sq].1 == None {
      RowTextStep(mail, sq, end, gap);
      RowTextShape(mail, sq + 1, end, gap + 1);
    } else {
      RowTextStep(mail, sq, end, gap);
      var (c, p) := mail[sq];
      var rest := RowText(mail, sq + 1, end, 0);
      RowTextShape(mail, sq + 1, end, 0);
      GapShape(gap);
      LetterShape(c, p);
      WidthConcat(GapText(gap), PieceChar(c, p));
      WidthConcat(GapText(gap) + PieceChar(c, p), rest);
      RowCharsConcat(GapText(gap), PieceChar(c, p));
      RowCharsConcat(GapText(gap) + PieceChar(c, p), rest);
    }
  }

  /** Piece letters and digits are neither a slash nor white space. */
  lemma RowCharsSolid(s: string)
    requires RowChars(s)
    ensures Lacks(s, '/') && Solid(s)
  {
    forall i | 0 <= i < |s| ensures s[i] != '/' && !IsSpace(s[i]) {
      assert IsPieceLetter(s[i]) || IsNumber(s[i]);
    }
  }

  /** Each rank's text holds piece letters and digits and covers eight squares. */
  lemma RanksShape(mail: seq<Cell>)
    requires |mail| == 64 && forall t :: 0 <= t < 64 ==> mail[t].1 != All
    ensures forall k :: 0 <= k < 8 ==> RowChars(RankTexts(mail)[k]) && Width(RankTexts(mail)[k]) == 8
    ensures forall k :: 0 <= k < 8 ==> Lacks(RankTexts(mail)[k], '/') && Solid(RankTexts(mail)[k]) && RankTexts(mail)[k] != []
  {
    forall k | 0 <= k < 8
      ensures RowChars(RankTexts(mail)[k]) && Width(RankTexts(mail)[k]) == 8
      ensures Lacks(RankTexts(mail)[k], '/') && Solid(RankTexts(mail)[k]) && RankTexts(mail)[k] != []
    {
      RankRow(mail, k);
      RowTextShape(mail, 56 - 8 * k, 64 - 8 * k, 0);
      RowCharsSolid(RankTexts(mail)[k]);
    }
  }

  // ---------------------------------------------------------------- one king of each colour in the text

  /** The king's letter of colour c: 'K' for White, 'k' for Black. */
  function KingLetter(c: Color): (l: char)
    ensures l == 'K' || l == 'k'
  {
    if c == White then 'K' else 'k'
  }

  /** The number of squares from lo up to hi whose cell is cell. */
  function CellCount(mail: seq<Cell>, lo: nat, hi: nat, cell: Cell): nat
    requires lo <= hi <= |mail|
    decreases hi - lo
  {
    if lo == hi then 0 else (if mail[lo] == cell then 1 else 0) + CellCount(mail, lo + 1, hi, cell)
  }

  /** Counting cells in two ranges. */
  lemma {:induction false} CellCountSplit(mail: seq<Cell>, lo: nat, mid: nat, hi: nat, cell: Cell)
    requires lo <= mid <= hi <= |mail|
    ensures CellCount(mail, lo, hi, cell) == CellCount(mail, lo, mid, cell) + CellCount(mail, mid, hi, cell)
    decreases mid - lo
  {
    if lo < mid {
      CellCountSplit(mail, lo + 1, mid, hi, cell);
    }
  }

  /** A range in which only square k holds cell counts it once if k is in the range, and never otherwise. */
  lemma {:induction false} CellCountOne(mail: seq<Cell>, lo: nat, hi: nat, cell: Cell, k: int)
    requires lo <= hi <= |mail|
    requires forall t :: lo <= t < hi ==> (mail[t] == cell <==> t == k)
    ensures CellCount(mail, lo, hi, cell) == if lo <= k < hi then 1 else 0
    decreases hi - lo
  {
    if lo < hi {
      CellCountOne(mail, lo + 1, hi, cell, k);
    }
  }

  /** A king's letter is written for each square holding that king and for nothing else. */
  lemma LetterCount(c: Color, d: Color, p: Piece)
    requires p.IsReal()
    ensures Count(PieceChar(d, p), KingLetter(c)) == if (d, p) == (c, King) then 1 else 0
  {
    PieceCharRunes(d, p);
    var ch := PieceChar(d, p)[0];
    assert PieceChar(d, p) == [ch];
    assert Count([ch], KingLetter(c)) == (if ch == KingLetter(c) then 1 else 0) + Count([], KingLetter(c));
  }

  /** Digits are no king's letter. */
  lemma GapCount(gap: nat, c: Color)
    ensures Count(GapText(gap), KingLetter(c)) == 0
  {
    if gap > 0 {
      assert AllDigits(Itoa(gap));
    }
  }

  /** The king's letters in the text of squares sq up to end are the king's cells there. */
  lemma {:induction false} RowTextCount(mail: seq<Cell>, sq: nat, end: nat, gap: nat, c: Color)
    requires sq <= end <= |mail|
    requires forall t :: sq <= t < end ==> mail[t].1 != All
    ensures Count(RowText(mail, sq, end, gap), KingLetter(c)) == CellCount(mail, sq, end, (c, King))
    decreases end - sq
  {
    var cell := (c, King);
    hide *;
    CellCountStep(mail, sq, end, cell);
    if sq == end {
      RowTextDone(mail, end, gap);
      GapCount(gap, c);
    } else if mail[sq].1 == None {
      RowTextSkip(mail, sq, end, gap);
      RowTextCount(mail, sq + 1, end, gap + 1, c);
    } else {
      var d, p := mail[sq].0, mail[sq].1;
      var rest := RowText(mail, sq + 1, end, 0);
      RowTextPut(mail, sq, end, gap);
      RowTextCount(mail, sq + 1, end, 0, c);
      GapCount(gap, c);
      LetterCount(c, d, p);
      CountConcat(PieceChar(d, p), rest, KingLetter(c));
      CountConcat(GapText(gap), PieceChar(d, p) + rest, KingLetter(c));
    }
  }

  /** One square of a count. */
  lemma CellCountStep(mail: seq<Cell>, lo: nat, hi: nat, cell: Cell)
    requires lo <= hi <= |mail|
    ensures CellCount(mail, lo, hi, cell) == if lo == hi then 0 else (if mail[lo] == cell then 1 else 0) + CellCount(mail, lo + 1, hi, cell)
  {
  }

  /** The king's letters in the texts of the n lowest ranks, highest first, are the king's cells in those ranks. */
  lemma {:induction false} RanksCount(mail: seq<Cell>, ws: seq<string>, n: nat, c: Color)
    requires |mail| == 64 && |ws| == n <= 8 && forall t :: 0 <= t < 64 ==> mail[t].1 != All
    requires forall j :: 0 <= j < n ==> ws[j] == RowText(mail, 8 * (n - 1 - j), 8 * (n - 1 - j) + 8, 0)
    ensures Count(Join(ws, '/'), KingLetter(c)) == CellCount(mail, 0, 8 * n, (c, King))
    decreases n
  {
    var cell := (c, King);
    hide *;
    if n == 0 {
      JoinEmpty('/');
      CellCountStep(mail, 0, 0, cell);
    } else {
      var lo := 8 * (n - 1);
      assert ws[0] == RowText(mail, lo, lo + 8, 0);
      RowTextCount(mail, lo, lo + 8, 0, c);
      CellCountSplit(mail, 0, lo, lo + 8, cell);
      if n == 1 {
        assert ws == [ws[0]];
        JoinOne(ws[0], '/');
        CellCountStep(mail, 0, 0, cell);
      } else {
        forall j | 0 <= j < n - 1
          ensures ws[1..][j] == RowText(mail, 8 * (n - 2 - j), 8 * (n - 2 - j) + 8, 0)
        {
          assert ws[1..][j] == ws[j + 1];
        }
        RanksCount(mail, ws[1..], n - 1, c);
        CountJoinCons(ws, '/', KingLetter(c));
      }
    }
  }

  // ---------------------------------------------------------------- the placement field of a describable position

  /** No square's cell names the All board. */
  lemma MailReal(pos: Position)
    requires Readable(pos)
    ensures forall t :: 0 <= t < 64 ==> Mail(pos)[t].1 != All
  {
    forall t | 0 <= t < 64 ensures Mail(pos)[t].1 != All {
      MailAt(pos, t);
    }
  }

  /** The placement field holds one king's letter of each colour. */
  lemma PlacementKings(pos: Position, c: Color)
    requires Describable(pos)
    ensures Count(PlacementText(Mail(pos)), KingLetter(c)) == 1
  {
    var mail := Mail(pos);
    MailReal(pos);
    forall t | 0 <= t < 64 ensures mail[t] == (c, King) <==> t == pos.King(c) {
      KingCell(pos, t, c);
    }
    assert pos.King(c) < 64;
    hide Describable, Mail, Readable, Valid, PieceOn;
    KingOnce(mail, c, pos.King(c));
  }

  /** A placement text in which one square holds the king of c has one letter of that king. */
  lemma KingOnce(mail: seq<Cell>, c: Color, k: nat)
    requires |mail| == 64 && k < 64 && forall t :: 0 <= t < 64 ==> mail[t].1 != All
    requires forall t :: 0 <= t < 64 ==> (mail[t] == (c, King) <==> t == k)
    ensures Count(PlacementText(mail), KingLetter(c)) == 1
  {
    var ranks := RankTexts(mail);
    hide RowText, RankText, Join, Count, RankTexts;
    forall j | 0 <= j < 8
      ensures ranks[j] == RowText(mail, 8 * (8 - 1 - j), 8 * (8 - 1 - j) + 8, 0)
    {
      RankRow(mail, j);
    }
    RanksCount(mail, ranks, 8, c);
    CellCountOne(mail, 0, 64, (c, King), k);
  }

  /**
   * The placement field is one word: split at its slashes it gives back the
   * ranks' texts, each of piece letters and digits covering eight squares.
   */
  lemma PlacementShape(pos: Position)
    requires Readable(pos)
    ensures PlacementText(Mail(pos)) != [] && Solid(PlacementText(Mail(pos)))
    ensures Split(PlacementText(Mail(pos)), '/') == RankTexts(Mail(pos))
    ensures CheckRows(RankTexts(Mail(pos))) == Nothing
  {
    var mail := Mail(pos);
    var ranks := RankTexts(mail);
    MailReal(pos);
    RanksShape(mail);
    hide Mail, Readable, PieceOn, RowText, RankText, Join, Split, Width, RowChars;
    SplitJoin(ranks, '/');
    JoinSolid(ranks, '/');
    JoinCons(ranks, '/');
    assert ranks[0] != [];
  }

  // ---------------------------------------------------------------- the other fields

  /** The castling field is one word that passes the castling check. */
  lemma CastlingWord(castle: Rights)
    ensures CastlingText(castle) != [] && Solid(CastlingText(castle)) && CastlingField(CastlingText(castle))
  {
    var f := CastlingText(castle);
    assert forall i :: 0 <= i < |f| ==> f[i] in "KQkq-";
    assert CastlingChar('K') && CastlingChar('Q') && CastlingChar('k') && CastlingChar('q') && CastlingChar('-');
  }

  /** A right's letter is in the castling field exactly when the right is held. */
  lemma RightInText(castle: Rights, c: Color, side: Side)
    ensures RightChar(c, side) in CastlingText(castle) <==> castle[c.Index()][side.Index()]
  {
  }

  /** The castling loop reading the castling field grants exactly the rights held. */
  lemma CastlingRead(castle: Rights)
    ensures Grants(NoRights(), CastlingText(castle)) == castle
  {
    var f := CastlingText(castle);
    var g := Grants(NoRights(), f);
    forall c: Color, side: Side
      ensures g[c.Index()][side.Index()] == castle[c.Index()][side.Index()]
    {
      GrantsIff(NoRights(), f, c, side);
      RightInText(castle, c, side);
    }
    hide Grants, CastlingText;
    assert g[0][0] == castle[0][0] && g[0][1] == castle[0][1] by {
      assert White.Index() == 0 && QS.Index() == 0 && KS.Index() == 1;
    }
    assert g[1][0] == castle[1][0] && g[1][1] == castle[1][1] by {
      assert Black.Index() == 1 && QS.Index() == 0 && KS.Index() == 1;
    }
    assert g[0] == castle[0] && g[1] == castle[1];
  }

  /**
   * The en passant field of a target that is none or on the third or sixth
   * rank is one word that names such a square, passes the check of `ParseFEN`
   * and is read back as the target.
   */
  lemma EnPassantRead(ep: Square)
    requires EnPassantRank(ep)
    ensures EnPassantText(ep) != [] && Solid(EnPassantText(ep))
    ensures EnPassantName(EnPassantText(ep)) && EnPassantField(EnPassantText(ep))
    ensures (EnPassantText(ep) == "-") == (ep == 0)
    ensures EnPassantText(ep) != "-" ==> |EnPassantText(ep)| >= 2 && EnPassantSquare(EnPassantText(ep)) == ep
  {
    if ep != 0 {
      var n := SquareName(ep);
      EnPassantSquareName(ep);
      EnPassantFieldName(ep);
      assert n[1] == RankDigit(Rank(ep));
      assert n != "-";
    }
  }

  /** A number's text is one word. */
  lemma NumberWord(n: int)
    ensures Itoa(n) != [] && Solid(Itoa(n))
  {
    var s := Itoa(n);
    forall i | 0 <= i < |s| ensures !IsSpace(s[i]) {
      if i > 0 || n >= 0 {
        assert n < 0 ==> s[i] == s[1..][i - 1];
        assert IsDigit(s[i]);
      }
    }
  }

  /** The fields of the record `FEN` writes for a describable position are its six fields. */
  lemma FieldsOfFen(pos: Position)
    requires Describable(pos)
    ensures Fields(FenOf(pos)) == FenFields(pos)
  {
    assert Readable(pos) && EnPassantRank(pos.ep) && pos.ep < 64;
    assert FenOf(pos) == Join(FenFields(pos), ' ');
    hide *;
    FieldsSolid(pos);
    FieldsJoin(FenFields(pos));
  }

  /** Each field `FEN` writes is a nonempty word without spaces. */
  lemma FieldsSolid(pos: Position)
    requires Readable(pos) && EnPassantRank(pos.ep)
    ensures pos.ep < 64 && forall i :: 0 <= i < 6 ==> FenFields(pos)[i] != [] && Solid(FenFields(pos)[i])
  {
    var fs := FenFields(pos);
    assert pos.ep < 64;
    hide *;
    assert fs[0] != [] && Solid(fs[0]) by {
      PlacementShape(pos);
    }
    assert fs[1] != [] && Solid(fs[1]);
    assert fs[2] != [] && Solid(fs[2]) by {
      CastlingWord(pos.castle);
    }
    assert fs[3] != [] && Solid(fs[3]) by {
      EnPassantRead(pos.ep);
    }
    assert fs[4] != [] && Solid(fs[4]) by {
      NumberWord(pos.halfMove);
    }
    assert fs[5] != [] && Solid(fs[5]) by {
      NumberWord(pos.fullMove);
    }
  }

  // ---------------------------------------------------------------- the round trip

  /** The fields after the placement are read back as the position, its Zobrist bitstring recomputed. */
  lemma RestRead(pos: Position)
    requires Describable(pos) && pos.z == Hash(pos)
    ensures ArmyConsistent(pos.b[0]) && ArmyConsistent(pos.b[1])
    ensures ReadRestChecked(FenFields(pos), Placement(pos.b, pos.kingSquare)) == Parsed(pos)
  {
    ValidConsistent(pos);
    assert EnPassantRank(pos.ep) && RightsBacked(pos) && EPPlaced(pos);
    hide Describable, Valid;
    RestFields(pos);
  }

  lemma RestFields(pos: Position)
    requires Readable(pos) && ArmyConsistent(pos.b[0]) && ArmyConsistent(pos.b[1])
    requires EnPassantRank(pos.ep) && RightsBacked(pos) && EPPlaced(pos) && pos.z == Hash(pos)
    ensures ReadRestChecked(FenFields(pos), Placement(pos.b, pos.kingSquare)) == Parsed(pos)
  {
    var fs := FenFields(pos);
    assert pos.ep < 64;
    assert fs[1] == (if pos.toMove == White then "w" else "b");
    assert fs[2] == CastlingText(pos.castle) && fs[3] == EnPassantText(pos.ep);
    assert fs[4] == Itoa(pos.halfMove) && fs[5] == Itoa(pos.fullMove);
    hide *;
    CastlingWord(pos.castle);
    CastlingRead(pos.castle);
    EnPassantRead(pos.ep);
    AtoiItoa(pos.halfMove);
    AtoiItoa(pos.fullMove);
    HashIgnoresZ(pos, Empty());
    assert (if fs[3] == "-" then 0 else EnPassantSquare(fs[3])) == pos.ep;
    RestFieldsValue(fs, pos);
  }

  /** `ReadRestChecked` on fields that pass every check builds the position they spell. */
  lemma RestFieldsValue(fs: seq<string>, pos: Position)
    requires |fs| == 6 && ArmyConsistent(pos.b[0]) && ArmyConsistent(pos.b[1])
    requires fs[1] == (if pos.toMove == White then "w" else "b")
    requires CastlingField(fs[2]) && Grants(NoRights(), fs[2]) == pos.castle
    requires EnPassantName(fs[3]) && (if fs[3] == "-" then 0 else EnPassantSquare(fs[3])) == pos.ep
    requires Atoi(fs[4]) == Some(pos.halfMove) && Atoi(fs[5]) == Some(pos.fullMove)
    requires Readable(pos.(z := Empty())) && Hash(pos.(z := Empty())) == pos.z
    requires RightsBacked(pos) && EPPlaced(pos)
    ensures ReadRestChecked(fs, Placement(pos.b, pos.kingSquare)) == Parsed(pos)
  {
    BackedIgnoresZ(pos, Empty());
    hide Grants, CastlingField, EnPassantName, EnPassantSquare, Atoi, Hash, Readable, ArmyConsistent, RightsBacked, EPPlaced;
    ConsistentReadable(pos.(z := Empty()));
  }

  /** `ParseFEN` as written reads the fields after the placement back as the position with `z` zero. */
  lemma RestReadAsWritten(pos: Position)
    requires Describable(pos)
    ensures ReadRest(FenFields(pos), Placement(pos.b, pos.kingSquare)) == Parsed(pos.(z := Empty()))
  {
    var fs := FenFields(pos);
    assert pos.ep < 64;
    CastlingWord(pos.castle);
    CastlingRead(pos.castle);
    EnPassantRead(pos.ep);
    AtoiItoa(pos.halfMove);
    AtoiItoa(pos.fullMove);
    hide Describable, Valid, Mail, PieceOn, PlacementText, CastlingText, EnPassantText, Itoa, Atoi,
      Grants, CastlingField, EnPassantField, EnPassantSquare;
    assert fs[1] == (if pos.toMove == White then "w" else "b");
    assert fs[2] == CastlingText(pos.castle) && fs[3] == EnPassantText(pos.ep);
    assert fs[4] == Itoa(pos.halfMove) && fs[5] == Itoa(pos.fullMove);
    assert (if fs[3] == "-" then 0 else EnPassantSquare(fs[3])) == pos.ep;
  }

  /**
   * What `FEN` writes for a describable position whose `z` is its Zobrist
   * bitstring, the reading its checks intend gives back exactly.
   */
  lemma FenRoundTrip(pos: Position)
    requires Describable(pos) && pos.z == Hash(pos)
    ensures ReadFenChecked(FenOf(pos)) == Parsed(pos)
  {
    var mail := Mail(pos);
    var fs := FenFields(pos);
    assert pos.ep < 64;
    assert fs[0] == PlacementText(mail);
    FieldsOfFen(pos);
    PlacementKings(pos, White);
    PlacementKings(pos, Black);
    PlacementShape(pos);
    PlacementRead(pos);
    RestRead(pos);
    hide *;
    ReadCheckedValue(FenOf(pos), fs, RankTexts(mail), pos);
  }

  /** `ReadFenChecked` on a record whose fields pass every check reads the position they spell. */
  lemma ReadCheckedValue(fen: string, fs: seq<string>, rows: seq<string>, pos: Position)
    requires Fields(fen) == fs && |fs| == 6
    requires Count(fs[0], 'K') == 1 && Count(fs[0], 'k') == 1
    requires Split(fs[0], '/') == rows && |rows| == 8 && CheckRows(rows) == Nothing
    requires PlaceRows(Blank(), rows, 0) == Placed(Placement(pos.b, pos.kingSquare))
    requires ArmyConsistent(pos.b[0]) && ArmyConsistent(pos.b[1])
    requires ReadRestChecked(fs, Placement(pos.b, pos.kingSquare)) == Parsed(pos)
    ensures ReadFenChecked(fen) == Parsed(pos)
  {
    hide Fields, Count, Split, CheckRows, PlaceRows, ReadRestChecked, ArmyConsistent;
  }

  /**
   * `ParseFEN` as written reads what `FEN` writes for a describable position
   * back as that position with its Zobrist bitstring left zero.
   */
  lemma FenRoundTripAsWritten(pos: Position)
    requires Describable(pos)
    ensures ReadFen(FenOf(pos)) == Parsed(pos.(z := Empty()))
  {
    var mail := Mail(pos);
    var fs := FenFields(pos);
    assert pos.ep < 64;
    assert fs[0] == PlacementText(mail);
    FieldsOfFen(pos);
    PlacementKings(pos, White);
    PlacementKings(pos, Black);
    PlacementShape(pos);
    PlacementRead(pos);
    RestReadAsWritten(pos);
    hide *;
    ReadValue(FenOf(pos), fs, pos.(z := Empty()));
  }

  /** `ReadFen` on a record whose placement passes the king checks and places the boards reads the position. */
  lemma ReadValue(fen: string, fs: seq<string>, pos: Position)
    requires Fields(fen) == fs && |fs| == 6
    requires Count(fs[0], 'K') == 1 && Count(fs[0], 'k') == 1
    requires PlaceRows(Blank(), Split(fs[0], '/'), 0) == Placed(Placement(pos.b, pos.kingSquare))
    requires ReadRest(fs, Placement(pos.b, pos.kingSquare)) == Parsed(pos)
    ensures ReadFen(fen) == Parsed(pos)
  {
    hide Fields, Count, Split, PlaceRows, ReadRest;
  }
}

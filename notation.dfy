/**
 * Move notation (algebraic.go): long algebraic notation, standard algebraic
 * notation with its disambiguation and check marks, move numbers, and the
 * text of a line of play.
 */
module Notation {
  import opened Bits
  import opened Chess
  import opened Moves
  import opened Generate
  import opened Legality
  import opened Decimal
  import opened Strings

  // ---------------------------------------------------------------- squares and pieces as text

  /** The file letters of board.go, a to h. */
  const FileLetters: string := "abcdefgh"

  /** The rank numbers of board.go, 1 to 8. */
  const RankNumbers: string := "12345678"

  /** `fileLetters[f]`. */
  function FileLetter(f: Square): (c: char)
    requires f < 8
    ensures 'a' <= c <= 'h' && c as int - 'a' as int == f
  {
    FileLetters[f]
  }

  /** `rankNumbers[r]`. */
  function RankDigit(r: Square): (c: char)
    requires r < 8
    ensures '1' <= c <= '8' && c as int - '1' as int == r
  {
    RankNumbers[r]
  }

  /** `Square.String`: the file letter and then the rank digit, "a1" for 0 up to "h8" for 63. */
  function SquareName(s: Square): (n: string)
    requires s < 64
    ensures |n| == 2 && 'a' <= n[0] <= 'h' && '1' <= n[1] <= '8'
  {
    [FileLetter(File(s)), RankDigit(Rank(s))]
  }

  /** The square a name such as "e4" denotes. */
  function ReadSquare(n: string): (r: Option<Square>)
    ensures r.Some? ==> r.value < 64
  {
    if |n| == 2 && 'a' <= n[0] <= 'h' && '1' <= n[1] <= '8' then
      Some(8 * (n[1] as int - '1' as int) + (n[0] as int - 'a' as int))
    else Nothing
  }

  /** Reading a square's name gives back the square. */
  lemma ReadSquareName(s: Square)
    requires s < 64
    ensures ReadSquare(SquareName(s)) == Some(s)
  {
  }

  /** Every name `ReadSquare` accepts is the name of the square it reads. */
  lemma SquareNameRead(n: string)
    requires ReadSquare(n).Some?
    ensures SquareName(ReadSquare(n).value) == n
  {
    var s := ReadSquare(n).value;
    assert File(s) == n[0] as int - 'a' as int && Rank(s) == n[1] as int - '1' as int;
  }

  /** `pieceLetter[p]`: nothing for None, else the upper-case letter; the table has no entry for All. */
  function PieceLetter(p: Piece): (s: string)
    requires p != All
    ensures |s| == if p == None then 0 else 1
  {
    match p
    case None => ""
    case Pawn => "P"
    case Knight => "N"
    case Bishop => "B"
    case Rook => "R"
    case Queen => "Q"
    case King => "K"
  }

  /** The piece an upper-case letter stands for, None for any other character. */
  function LetterPiece(c: char): (p: Piece)
    ensures p != All
  {
    match c
    case 'P' => Pawn
    case 'N' => Knight
    case 'B' => Bishop
    case 'R' => Rook
    case 'Q' => Queen
    case 'K' => King
    case _ => None
  }

  /** Each piece's letter stands for that piece. */
  lemma LetterPieceLetter(p: Piece)
    requires p.IsReal()
    ensures LetterPiece(PieceLetter(p)[0]) == p
  {
  }

  /** The text of a castling move. */
  function CastleText(side: Side): (s: string)
    ensures s == "O-O-O" || s == "O-O"
  {
    if side == QS then "O-O-O" else "O-O"
  }

  // ---------------------------------------------------------------- long algebraic notation

  /** What the notation functions index: squares on the board, a moving piece, and piece letters in the table. */
  predicate Writable(m: Move)
  {
    m.from < 64 && m.to < 64 && m.piece.IsReal() && m.promotePiece != All
  }

  lemma DefinedWritable(m: Move)
    requires MoveDefined(m)
    ensures Writable(m)
  {
  }

  /** What long algebraic notation records of a move. */
  datatype LongForm = Castles(side: Side) | Plain(piece: Piece, from: Square, capture: bool, to: Square, promote: Piece)

  /** The record of m: its castling side, or its piece, squares, capture flag and promotion. */
  function LongFormOf(m: Move): LongForm
  {
    if m.IsCastle().1 then Castles(m.IsCastle().0) else Plain(m.piece, m.from, m.IsCapture(), m.to, m.promotePiece)
  }

  /**
   * `LongAlgebraic`: "O-O-O" or "O-O" for a king moving two files, else the
   * piece letter (none for a pawn), the origin, "x" for a capture or "-",
   * the destination and the letter of the promoted piece.
   */
  function LongAlgebraic(m: Move): (s: string)
    requires Writable(m)
    ensures s == "O-O-O" <==> m.IsCastle() == (QS, true)
    ensures s == "O-O" <==> m.IsCastle() == (KS, true)
  {
    var (side, ok) := m.IsCastle();
    if ok then CastleText(side)
    else
      var head := if m.piece != Pawn then PieceLetter(m.piece) else "";
      var s := head + SquareName(m.from) + (if m.IsCapture() then "x" else "-") + SquareName(m.to) +
        (if m.IsPromotion() then PieceLetter(m.promotePiece) else "");
      assert s[0] == if m.piece != Pawn then head[0] else SquareName(m.from)[0];
      s
  }

  /** A reader of long algebraic notation. */
  function ReadLong(s: string): Option<LongForm>
  {
    if s == "O-O-O" then Some(Castles(QS))
    else if s == "O-O" then Some(Castles(KS))
    else
      var lettered := |s| > 0 && LetterPiece(s[0]) != None;
      var piece := if lettered then LetterPiece(s[0]) else Pawn;
      var rest := if lettered then s[1..] else s;
      if |rest| < 5 || (rest[2] != 'x' && rest[2] != '-') then Nothing
      else
        var from, to, promo := ReadSquare(rest[..2]), ReadSquare(rest[3..5]), rest[5..];
        if from.Nothing? || to.Nothing? then Nothing
        else if promo == [] then Some(Plain(piece, from.value, rest[2] == 'x', to.value, None))
        else if |promo| == 1 && LetterPiece(promo[0]) != None then
          Some(Plain(piece, from.value, rest[2] == 'x', to.value, LetterPiece(promo[0])))
        else Nothing
  }

  /** Reading the long algebraic text of a move gives back its record. */
  lemma ReadLongAlgebraic(m: Move)
    requires Writable(m)
    ensures ReadLong(LongAlgebraic(m)) == Some(LongFormOf(m))
  {
    hide FileLetter, RankDigit;
    if !m.IsCastle().1 {
      var s := LongAlgebraic(m);
      var head := if m.piece != Pawn then PieceLetter(m.piece) else "";
      var rest := SquareName(m.from) + (if m.IsCapture() then "x" else "-") + SquareName(m.to) +
        (if m.IsPromotion() then PieceLetter(m.promotePiece) else "");
      assert s == head + rest;
      assert rest[..2] == SquareName(m.from) && rest[3..5] == SquareName(m.to);
      ReadSquareName(m.from);
      ReadSquareName(m.to);
      if m.piece != Pawn {
        LetterPieceLetter(m.piece);
        assert s[1..] == rest;
      } else {
        assert LetterPiece(s[0]) == None;
      }
      if m.IsPromotion() {
        LetterPieceLetter(m.promotePiece);
      }
    }
  }

  /** Two moves with the same long algebraic text have the same record. */
  lemma LongAlgebraicInjective(m: Move, n: Move)
    requires Writable(m) && Writable(n) && LongAlgebraic(m) == LongAlgebraic(n)
    ensures LongFormOf(m) == LongFormOf(n)
  {
    ReadLongAlgebraic(m);
    ReadLongAlgebraic(n);
  }

  // ---------------------------------------------------------------- standard algebraic notation

  /**
   * The `can` board of `Algebraic`: the XOR of the origin squares of the moves
   * of ms that take a piece of kind p to the square to.
   */
  function Origins(ms: seq<Move>, p: Piece, to: Square): Board
  {
    if ms == [] then Empty()
    else
      var can := Origins(ms[..|ms| - 1], p, to);
      var mm := ms[|ms| - 1];
      if mm.to == to && mm.piece == p then Xor(can, SquareBoard(mm.from)) else can
  }

  /** How many moves of ms take a piece of kind p from s to the square to. */
  function OriginCount(ms: seq<Move>, p: Piece, to: Square, s: Square): nat
  {
    if ms == [] then 0
    else
      var mm := ms[|ms| - 1];
      OriginCount(ms[..|ms| - 1], p, to, s) + if mm.to == to && mm.piece == p && mm.from == s then 1 else 0
  }

  /**
   * A square is in `can` exactly when it is on the board and an odd number of
   * the moves take a piece of the kind to the destination from it.
   */
  lemma {:induction false} OriginsParity(ms: seq<Move>, p: Piece, to: Square, s: Square)
    ensures Has(Origins(ms, p, to), s) <==> s < 64 && OriginCount(ms, p, to, s) % 2 == 1
    decreases |ms|
  {
    if ms != [] {
      OriginsParity(ms[..|ms| - 1], p, to, s);
    }
  }

  /** So every square in `can` is the origin of one of the moves. */
  lemma OriginsAreOrigins(ms: seq<Move>, p: Piece, to: Square, s: Square)
    requires Has(Origins(ms, p, to), s)
    ensures exists mm :: mm in ms && mm.piece == p && mm.to == to && mm.from == s
  {
    OriginsParity(ms, p, to, s);
    OriginCountWitness(ms, p, to, s);
  }

  lemma {:induction false} OriginCountWitness(ms: seq<Move>, p: Piece, to: Square, s: Square)
    requires OriginCount(ms, p, to, s) > 0
    ensures exists mm :: mm in ms && mm.piece == p && mm.to == to && mm.from == s
    decreases |ms|
  {
    var mm := ms[|ms| - 1];
    if !(mm.to == to && mm.piece == p && mm.from == s) {
      OriginCountWitness(ms[..|ms| - 1], p, to, s);
      var w :| w in ms[..|ms| - 1] && w.piece == p && w.to == to && w.from == s;
      assert w in ms;
    } else {
      assert mm in ms;
    }
  }

  /**
   * The origin qualifier of a piece move: nothing when `can` holds one
   * square, else the file letter when the origin is alone on its file in
   * `can`, else the rank digit when it is alone on its rank, else both.
   */
  function Qualifier(can: Board, from: Square): (q: string)
    requires from < 64
  {
    if PopCount(can) == 1 then ""
    else if PopCount(And(can, FileMask(File(from)))) == 1 then [FileLetter(File(from))]
    else if PopCount(And(can, RankMask(Rank(from)))) == 1 then [RankDigit(Rank(from))]
    else SquareName(from)
  }

  /** Whether a qualifier fits square s: empty, s's file letter, s's rank digit, or s's name. */
  predicate Fits(q: string, s: Square)
    requires s < 64
  {
    q == [] || q == [FileLetter(File(s))] || q == [RankDigit(Rank(s))] || q == SquareName(s)
  }

  /**
   * The qualifier picks out the origin: it fits the origin, and it fits no
   * other square of `can`.
   */
  lemma QualifierPicksOrigin(can: Board, from: Square, t: Square)
    requires from < 64 && Has(can, from) && Has(can, t) && t != from
    ensures Fits(Qualifier(can, from), from)
    ensures !Fits(Qualifier(can, from), t)
  {
    hide PopCount, FileMask, RankMask;
    PopCountTwo(can, from, t);
    var q := Qualifier(can, from);
    var f, r := FileLetter(File(from)), RankDigit(Rank(from));
    if q == [f] {
      if File(t) == File(from) {
        PopCountTwo(And(can, FileMask(File(from))), from, t);
      }
      assert f != FileLetter(File(t));
      assert f != RankDigit(Rank(t));
      assert |SquareName(t)| == 2;
    } else if q == [r] {
      if Rank(t) == Rank(from) {
        PopCountTwo(And(can, RankMask(Rank(from))), from, t);
      }
      assert r != RankDigit(Rank(t));
      assert r != FileLetter(File(t));
      assert |SquareName(t)| == 2;
    } else {
      assert q == SquareName(from);
      NamesDiffer(from, t);
    }
  }

  /** Two squares have different names. */
  lemma NamesDiffer(s: Square, t: Square)
    requires s < 64 && t < 64 && s != t
    ensures SquareName(s) != SquareName(t)
  {
    ReadSquareName(s);
    ReadSquareName(t);
  }

  /** A qualifier is at most a square's name and holds no break. */
  lemma QualifierShape(can: Board, from: Square)
    requires from < 64
    ensures |Qualifier(can, from)| <= 2 && NoBreaks(Qualifier(can, from))
  {
    hide PopCount, FileMask, RankMask;
  }

  /**
   * The text `Algebraic` builds before the check mark, given `can`: castling
   * text; or, for a pawn, its origin file on a capture; or, for a piece, its
   * letter and qualifier; then "x" on a capture, the destination and the
   * letter of the promoted piece.
   */
  function SanBody(m: Move, can: Board): string
    requires Writable(m)
  {
    var (side, ok) := m.IsCastle();
    if ok then CastleText(side)
    else
      var prefix :=
        if m.piece == Pawn then (if m.IsCapture() then [FileLetter(File(m.from))] else "")
        else PieceLetter(m.piece) + Qualifier(can, m.from);
      prefix + (if m.IsCapture() then "x" else "") + SquareName(m.to) +
      (if m.IsPromotion() then PieceLetter(m.promotePiece) else "")
  }

  /** The check mark: "#" for check with no legal reply (`IsMate`), "+" for check alone. */
  function CheckMark(pos: Position): string
    requires Playable(pos)
  {
    PlayableFacts(pos);
    if IsCheck(pos) then (if LegalList(pos) == [] then "#" else "+") else ""
  }

  /** What `Algebraic(pos, m)` returns. */
  function AlgebraicOf(pos: Position, m: Move): string
    requires Playable(pos) && MoveDefined(m)
  {
    LegalMade(pos, m);
    SanBody(m, Origins(LegalList(pos), m.piece, m.to)) + CheckMark(Made(pos, m))
  }

  /** No space and no dot. */
  predicate NoBreaks(s: string)
  {
    forall i :: 0 <= i < |s| ==> s[i] != ' ' && s[i] != '.'
  }

  /** A letter or a digit. */
  predicate Alnum(c: char)
  {
    'a' <= c <= 'z' || 'A' <= c <= 'Z' || '0' <= c <= '9'
  }

  /** A letter or digit is not a check mark. */
  lemma AlnumNoMark(c: char)
    requires Alnum(c)
    ensures c != '#' && c != '+'
  {
  }

  lemma NoBreaksConcat(a: string, b: string)
    requires NoBreaks(a) && NoBreaks(b)
    ensures NoBreaks(a + b)
  {
  }

  /** The body is a word of letters, digits, dashes and "x" that ends in a letter or digit. */
  lemma SanBodyShape(m: Move, can: Board)
    requires Writable(m)
    ensures |SanBody(m, can)| >= 2 && NoBreaks(SanBody(m, can)) && Alnum(SanBody(m, can)[|SanBody(m, can)| - 1])
  {
    hide PopCount, FileMask, RankMask, Qualifier;
    var (side, ok) := m.IsCastle();
    if !ok {
      QualifierShape(can, m.from);
      var prefix :=
        if m.piece == Pawn then (if m.IsCapture() then [FileLetter(File(m.from))] else "")
        else PieceLetter(m.piece) + Qualifier(can, m.from);
      var promo := if m.IsPromotion() then PieceLetter(m.promotePiece) else "";
      assert NoBreaks(prefix);
      NoBreaksConcat(prefix, if m.IsCapture() then "x" else "");
      NoBreaksConcat(prefix + (if m.IsCapture() then "x" else ""), SquareName(m.to));
      NoBreaksConcat(prefix + (if m.IsCapture() then "x" else "") + SquareName(m.to), promo);
    }
  }

  /** The body of a pawn move starts with its origin file and "x" on a capture, else with its destination. */
  lemma SanBodyPawn(m: Move, can: Board)
    requires Writable(m) && m.piece == Pawn
    ensures |SanBody(m, can)| >= 2
    ensures m.IsCapture() ==> SanBody(m, can)[..2] == [FileLetter(File(m.from)), 'x']
    ensures !m.IsCapture() ==> SanBody(m, can)[..2] == SquareName(m.to)
  {
  }

  /** The body of a piece move starts with the piece letter and the qualifier. */
  lemma SanBodyPiece(m: Move, can: Board)
    requires Writable(m) && m.piece != Pawn && !m.IsCastle().1
    ensures var q := Qualifier(can, m.from);
      |SanBody(m, can)| >= 1 + |q| && SanBody(m, can)[..1 + |q|] == PieceLetter(m.piece) + q
  {
  }

  /** `AlgebraicOf` is the body for the legal moves of pos followed by the check mark of the position m leads to. */
  lemma AlgebraicOfParts(pos: Position, m: Move)
    requires Playable(pos) && MoveDefined(m)
    ensures Writable(m) && m.from < 64 && m.to < 64 && MakeDefined(pos, m)
    ensures Playable(Made(pos, m)) && Made(pos, m).King(Made(pos, m).toMove) < 64
    ensures AlgebraicOf(pos, m) == SanBody(m, Origins(LegalList(pos), m.piece, m.to)) + CheckMark(Made(pos, m))
  {
    hide LegalList, Made, Legal, IsLegal, IsCheck, SanBody, CheckMark, Origins, Playable;
    PlayableFacts(pos);
    LegalMade(pos, m);
    PlayableFacts(Made(pos, m));
  }

  /** The check mark is "#", "+" or nothing as the position is checkmate, check, or neither. */
  lemma CheckMarkCases(pos: Position)
    requires Playable(pos)
    ensures pos.King(pos.toMove) < 64
    ensures CheckMark(pos) == "#" <==> IsCheck(pos) && LegalList(pos) == []
    ensures CheckMark(pos) == "+" <==> IsCheck(pos) && LegalList(pos) != []
    ensures CheckMark(pos) == "" <==> !IsCheck(pos)
    ensures NoBreaks(CheckMark(pos))
  {
    hide LegalList, IsCheck;
    PlayableFacts(pos);
  }

  /**
   * The standard algebraic text ends in "#" exactly when the move gives
   * check and leaves no legal reply, and in "+" exactly when it gives check
   * and a legal reply remains.
   */
  lemma AlgebraicCheckMark(pos: Position, m: Move)
    requires Playable(pos) && MoveDefined(m)
    ensures Playable(Made(pos, m)) && Made(pos, m).King(Made(pos, m).toMove) < 64
    ensures var s, r := AlgebraicOf(pos, m), Made(pos, m);
      |s| >= 2 &&
      (s[|s| - 1] == '#' <==> IsCheck(r) && LegalList(r) == []) &&
      (s[|s| - 1] == '+' <==> IsCheck(r) && LegalList(r) != [])
  {
    hide *;
    AlgebraicOfParts(pos, m);
    var r := Made(pos, m);
    CheckMarkCases(r);
    var body := SanBody(m, Origins(LegalList(pos), m.piece, m.to));
    SanBodyShape(m, Origins(LegalList(pos), m.piece, m.to));
    var s := AlgebraicOf(pos, m);
    if CheckMark(r) == "" {
      assert s == body;
      AlnumNoMark(body[|body| - 1]);
    } else {
      assert s[|s| - 1] == CheckMark(r)[0];
    }
  }

  /** A pawn capture starts with the origin file and "x"; a quiet pawn move starts with its destination. */
  lemma AlgebraicPawn(pos: Position, m: Move)
    requires Playable(pos) && MoveDefined(m) && m.piece == Pawn
    ensures m.IsCapture() ==> AlgebraicOf(pos, m)[..2] == [FileLetter(File(m.from)), 'x']
    ensures !m.IsCapture() ==> AlgebraicOf(pos, m)[..2] == SquareName(m.to)
  {
    hide *;
    AlgebraicOfParts(pos, m);
    SanBodyPawn(m, Origins(LegalList(pos), m.piece, m.to));
  }

  /**
   * For a piece other than a pawn, the letter after the piece letter and the
   * qualifier pick out the origin among the origins of the legal moves of
   * the same kind of piece to the same square: the qualifier fits the
   * origin and no other square in `can`.
   */
  lemma AlgebraicDisambiguates(pos: Position, m: Move, t: Square)
    requires Playable(pos) && MoveDefined(m) && m.piece != Pawn && !m.IsCastle().1
    requires Has(Origins(LegalList(pos), m.piece, m.to), m.from)
    requires Has(Origins(LegalList(pos), m.piece, m.to), t) && t != m.from
    ensures exists mm :: mm in LegalList(pos) && mm.piece == m.piece && mm.to == m.to && mm.from == t
    ensures var q := Qualifier(Origins(LegalList(pos), m.piece, m.to), m.from);
      AlgebraicOf(pos, m)[..1 + |q|] == PieceLetter(m.piece) + q && Fits(q, m.from) && !Fits(q, t)
  {
    hide *;
    AlgebraicOfParts(pos, m);
    var can := Origins(LegalList(pos), m.piece, m.to);
    SanBodyPiece(m, can);
    OriginsAreOrigins(LegalList(pos), m.piece, m.to, t);
    QualifierPicksOrigin(can, m.from, t);
  }

  /**
   * `Algebraic`: the standard algebraic text of m, accumulating `can` over
   * `LegalMoves(pos)` for a piece move, with "#" or "+" after a move that
   * gives check.
   */
  method Algebraic(pos: Position, m: Move) returns (s: string)
    requires Playable(pos) && MoveDefined(m)
    ensures s == AlgebraicOf(pos, m)
  {
    hide *;
    AlgebraicOfParts(pos, m);
    s := AlgebraicBody(pos, m);
    var newpos := Make(pos, m);
    CheckMarkCases(newpos);
    if IsCheck(newpos) {
      var terminal := IsTerminal(newpos);
      if terminal {
        s := s + "#";
      } else {
        s := s + "+";
      }
    } else {
      assert s + CheckMark(newpos) == s;
    }
  }

  /** `Origins` over one more move. */
  lemma OriginsNone(ms: seq<Move>, p: Piece, to: Square)
    ensures Origins(ms[..0], p, to) == Empty()
  {
  }

  /** `Origins` over one more move. */
  lemma OriginsNext(ms: seq<Move>, p: Piece, to: Square, i: nat)
    requires i < |ms|
    ensures Origins(ms[..i + 1], p, to) ==
      if ms[i].to == to && ms[i].piece == p then Xor(Origins(ms[..i], p, to), SquareBoard(ms[i].from)) else Origins(ms[..i], p, to)
  {
    assert ms[..i + 1][..i] == ms[..i];
  }

  /** The loop of `Algebraic` over `LegalMoves(pos)`, computing `can`. */
  method LegalOrigins(pos: Position, p: Piece, to: Square) returns (can: Board)
    requires Playable(pos)
    ensures can == Origins(LegalList(pos), p, to)
  {
    hide *;
    var legal := LegalMoves(pos);
    can := Empty();
    OriginsNone(legal, p, to);
    for i := 0 to |legal|
      invariant can == Origins(legal[..i], p, to)
    {
      OriginsNext(legal, p, to, i);
      var mm := legal[i];
      if mm.to == to && mm.piece == p {
        can := Xor(can, SquareBoard(mm.from));
      }
    }
    assert legal[..|legal|] == legal;
  }

  /**
   * The disambiguation step of `Algebraic`: the origins of the legal moves of
   * m's piece to m's target, then the least of file, rank or square that
   * tells m's origin apart.
   */
  method Disambiguation(pos: Position, m: Move) returns (q: string)
    requires Playable(pos) && m.from < 64
    ensures q == Qualifier(Origins(LegalList(pos), m.piece, m.to), m.from)
  {
    hide PopCount, And, FileMask, RankMask, LegalList, Playable, Origins;
    var can := LegalOrigins(pos, m.piece, m.to);
    ghost var want := Qualifier(can, m.from);
    if PopCount(can) == 1 {
      // no need to specify
      q := "";
    } else if PopCount(And(can, FileMask(File(m.from)))) == 1 {
      q := [FileLetter(File(m.from))];
    } else if PopCount(And(can, RankMask(Rank(m.from)))) == 1 {
      q := [RankDigit(Rank(m.from))];
    } else {
      q := [FileLetter(File(m.from)), RankDigit(Rank(m.from))];
    }
    assert q == want;
  }

  /** The part of `Algebraic` before the check mark. */
  method AlgebraicBody(pos: Position, m: Move) returns (s: string)
    requires Playable(pos) && MoveDefined(m)
    ensures s == SanBody(m, Origins(LegalList(pos), m.piece, m.to))
  {
    hide LegalList, Playable, Legal, Made, Qualifier;
    var (side, ok) := m.IsCastle();
    if ok && side == QS {
      s := "O-O-O";
    } else if ok && side == KS {
      s := "O-O";
    } else {
      s := "";
      if m.piece == Pawn {
        if m.IsCapture() {
          s := [FileLetter(File(m.from))];
        }
      } else {
        s := PieceLetter(m.piece);
        var q := Disambiguation(pos, m);
        s := s + q;
      }
      ghost var prefix := s;
      if m.IsCapture() {
        s := s + "x";
      }
      assert s == prefix + (if m.IsCapture() then "x" else "");
      s := s + SquareName(m.to);
      ghost var stem := s;
      if m.IsPromotion() {
        s := s + PieceLetter(m.promotePiece);
      }
      assert s == stem + (if m.IsPromotion() then PieceLetter(m.promotePiece) else "");
    }
  }

  // ---------------------------------------------------------------- move numbers

  /** `moveNumber`: the full-move number and "." when White moves, "..." when Black moves. */
  function MoveNumber(pos: Position): (s: string)
  {
    Itoa(pos.fullMove) + (if pos.toMove == White then "." else "...")
  }

  /** The index of the first dot of s, or |s| when it has none. */
  function DotIndex(s: string): (k: nat)
    ensures k <= |s|
    ensures k < |s| ==> s[k] == '.'
    ensures forall i :: 0 <= i < k ==> s[i] != '.'
  {
    if s == [] then 0 else if s[0] == '.' then 0 else 1 + DotIndex(s[1..])
  }

  /** A reader of numbered moves: the number before the first dot, White for ".", Black for "...", and the rest. */
  function ReadNumbered(s: string): Option<(int, Color, string)>
  {
    var k := DotIndex(s);
    if k == |s| then Nothing
    else
      match Atoi(s[..k])
      case Nothing => Nothing
      case Some(n) =>
        if |s| >= k + 3 && s[k..k + 3] == "..." then Some((n, Black, s[k + 3..])) else Some((n, White, s[k + 1..]))
  }

  /** The reader takes a move number followed by a word without dots apart again. */
  lemma ReadMoveNumber(pos: Position, w: string)
    requires NoBreaks(w) && w != []
    ensures ReadNumbered(MoveNumber(pos) + w) == Some((pos.fullMove, pos.toMove, w))
  {
    var num := Itoa(pos.fullMove);
    var dots := if pos.toMove == White then "." else "...";
    var s := MoveNumber(pos) + w;
    assert s == num + dots + w;
    var k := |num|;
    ItoaChars(pos.fullMove);
    AtoiItoa(pos.fullMove);
    assert s[k] == '.';
    assert forall i :: 0 <= i < k ==> s[i] == num[i];
    assert DotIndex(s) == k by {
      DotIndexAt(s, k);
    }
    assert s[..k] == num;
    assert Atoi(s[..k]) == Some(pos.fullMove);
    if pos.toMove == White {
      assert s[k + 1] == w[0] != '.';
      if |s| >= k + 3 {
        assert s[k..k + 3][1] == s[k + 1] != '.';
      }
      assert s[k + 1..] == w;
      assert ReadNumbered(s) == Some((pos.fullMove, White, s[k + 1..]));
    } else {
      assert s[k..k + 3] == "...";
      assert s[k + 3..] == w;
      assert ReadNumbered(s) == Some((pos.fullMove, Black, s[k + 3..]));
    }
  }

  lemma DotIndexAt(s: string, k: nat)
    requires k < |s| && s[k] == '.' && forall i :: 0 <= i < k ==> s[i] != '.'
    ensures DotIndex(s) == k
  {
    var d := DotIndex(s);
    assert !(d < k);
  }

  /** `numberedAlgebraic`: the move number, then the standard algebraic text. */
  function NumberedAlgebraic(pos: Position, m: Move): (s: string)
    requires Playable(pos) && MoveDefined(m)
  {
    MoveNumber(pos) + AlgebraicOf(pos, m)
  }

  /** The number, the side to move and the move's text can be read back from the numbered text. */
  lemma ReadNumberedAlgebraic(pos: Position, m: Move)
    requires Playable(pos) && MoveDefined(m)
    ensures ReadNumbered(NumberedAlgebraic(pos, m)) == Some((pos.fullMove, pos.toMove, AlgebraicOf(pos, m)))
  {
    AlgebraicPlain(pos, m);
    ReadMoveNumber(pos, AlgebraicOf(pos, m));
  }

  /** The standard algebraic text of a move is a nonempty word without spaces or dots. */
  lemma AlgebraicPlain(pos: Position, m: Move)
    requires Playable(pos) && MoveDefined(m)
    ensures AlgebraicOf(pos, m) != [] && NoBreaks(AlgebraicOf(pos, m))
  {
    hide *;
    AlgebraicOfParts(pos, m);
    var mark := CheckMark(Made(pos, m));
    CheckMarkCases(Made(pos, m));
    SanBodyShape(m, Origins(LegalList(pos), m.piece, m.to));
    NoBreaksConcat(SanBody(m, Origins(LegalList(pos), m.piece, m.to)), mark);
  }

  // ---------------------------------------------------------------- the text of a line

  /** A move's entry in `Text`: its number when White moves it, then its standard algebraic text. */
  function Entry(pos: Position, m: Move): string
    requires Playable(pos) && MoveDefined(m)
  {
    (if pos.toMove == White then MoveNumber(pos) else "") + AlgebraicOf(pos, m)
  }

  /** The entries of the moves of ms, each in the position the moves before it lead to. */
  function Entries(pos: Position, ms: seq<Move>): (es: seq<string>)
    requires Playable(pos) && AllDefined(ms)
    ensures |es| == |ms|
    decreases |ms|
  {
    if ms == [] then []
    else
      MakeDefinedAt(pos, ms, 0);
      LegalMade(pos, ms[0]);
      AllDefinedDrop(ms, 1);
      [Entry(pos, ms[0])] + Entries(Made(pos, ms[0]), ms[1..])
  }

  /** What `Text(pos, ms)` returns: the move number first if Black moves first, then the entries. */
  function TextOf(pos: Position, ms: seq<Move>): string
    requires Playable(pos) && AllDefined(ms)
  {
    (if pos.toMove == Black then MoveNumber(pos) else "") + Join(Entries(pos, ms), ' ')
  }

  /** A move number is a nonempty word without spaces. */
  lemma MoveNumberShape(pos: Position)
    ensures MoveNumber(pos) != [] && Lacks(MoveNumber(pos), ' ')
  {
    ItoaChars(pos.fullMove);
  }

  /** Each entry is a nonempty word without spaces. */
  lemma EntryShape(pos: Position, m: Move)
    requires Playable(pos) && MoveDefined(m)
    ensures Entry(pos, m) != [] && Lacks(Entry(pos, m), ' ')
  {
    hide AlgebraicOf, MoveNumber, Playable;
    AlgebraicPlain(pos, m);
    MoveNumberShape(pos);
  }

  /** The entries of a line after its first move are those of the rest of the line from the next position. */
  lemma EntriesStep(pos: Position, ms: seq<Move>, i: nat)
    requires Playable(pos) && AllDefined(ms) && i < |ms|
    ensures MakeDefined(pos, ms[i]) && MoveDefined(ms[i]) && Playable(Made(pos, ms[i])) && AllDefined(ms[i..]) && AllDefined(ms[i + 1..])
    ensures Entries(pos, ms[i..]) == [Entry(pos, ms[i])] + Entries(Made(pos, ms[i]), ms[i + 1..])
  {
    hide Entry, Made, Playable, Legal, LegalList, IsLegal;
    PlayableFacts(pos);
    MakeDefinedAt(pos, ms, i);
    LegalMade(pos, ms[i]);
    AllDefinedDrop(ms, i);
    AllDefinedDrop(ms, i + 1);
    assert ms[i..][1..] == ms[i + 1..];
  }

  /** Each entry is a nonempty word without spaces. */
  lemma {:induction false} EntriesShape(pos: Position, ms: seq<Move>)
    requires Playable(pos) && AllDefined(ms)
    ensures forall k :: 0 <= k < |ms| ==> Entries(pos, ms)[k] != [] && Lacks(Entries(pos, ms)[k], ' ')
    decreases |ms|
  {
    hide *;
    if ms != [] {
      EntriesStep(pos, ms, 0);
      assert ms[0..] == ms;
      var es, rest := Entries(pos, ms), Entries(Made(pos, ms[0]), ms[1..]);
      EntriesShape(Made(pos, ms[0]), ms[1..]);
      EntryShape(pos, ms[0]);
      forall k | 0 <= k < |ms| ensures es[k] != [] && Lacks(es[k], ' ') {
        if k > 0 {
          assert es[k] == rest[k - 1];
        }
      }
    }
  }

  /** `Text` is empty exactly for no moves with White to move. */
  lemma TextEmpty(pos: Position, ms: seq<Move>)
    requires Playable(pos) && AllDefined(ms)
    ensures TextOf(pos, ms) == "" <==> ms == [] && pos.toMove == White
  {
    hide Entries, MoveNumber, Playable;
    MoveNumberShape(pos);
    if ms != [] {
      EntriesShape(pos, ms);
      var es := Entries(pos, ms);
      assert |Join(es, ' ')| >= |es[0]|;
    }
  }

  /**
   * The text of a line splits at its spaces into one word per move: the
   * move's entry, the first one preceded by the move number when Black
   * moves first.
   */
  lemma TextSplit(pos: Position, ms: seq<Move>)
    requires Playable(pos) && AllDefined(ms) && ms != []
    ensures var es := Entries(pos, ms);
      Split(TextOf(pos, ms), ' ') == [(if pos.toMove == Black then MoveNumber(pos) else "") + es[0]] + es[1..]
  {
    hide Entries, MoveNumber, Playable, Split;
    var es := Entries(pos, ms);
    var lead := if pos.toMove == Black then MoveNumber(pos) else "";
    EntriesShape(pos, ms);
    MoveNumberShape(pos);
    var ws := [lead + es[0]] + es[1..];
    assert TextOf(pos, ms) == Join(ws, ' ') by {
      if |es| > 1 {
        assert ws[1..] == es[1..];
        assert lead + Join(es, ' ') == (lead + es[0]) + " " + Join(es[1..], ' ');
      }
    }
    assert forall k :: 0 <= k < |ws| ==> Lacks(ws[k], ' ') by {
      assert forall k :: 1 <= k < |ws| ==> ws[k] == es[k];
    }
    SplitJoin(ws, ' ');
  }

  lemma EntryIs(pos: Position, m: Move, num: string, san: string)
    requires Playable(pos) && MoveDefined(m) && san == AlgebraicOf(pos, m)
    requires num == if pos.toMove == White then MoveNumber(pos) else ""
    ensures Entry(pos, m) == num + san
  {
  }

  /**
   * `Text`: the standard algebraic text of a line of moves, each made in the
   * position the previous ones lead to, with move numbers.
   */
  method Text(pos: Position, ms: seq<Move>) returns (s: string)
    requires Playable(pos) && AllDefined(ms)
    ensures s == TextOf(pos, ms)
  {
    hide *;
    ghost var es := Entries(pos, ms);
    ghost var lead := if pos.toMove == Black then MoveNumber(pos) else "";
    s := "";
    if pos.toMove == Black {
      s := MoveNumber(pos);
    }
    var p := pos;
    AllDefinedDrop(ms, 0);
    assert ms[0..] == ms && es[0..] == es && es[..0] == [];
    JoinEmpty(' ');
    for i := 0 to |ms|
      invariant Playable(p)
      invariant i < |ms| ==> AllDefined(ms[i..]) && Entries(p, ms[i..]) == es[i..]
      invariant s == lead + Join(es[..i], ' ') + (if 0 < i < |ms| then " " else "")
    {
      var m := ms[i];
      EntriesStep(p, ms, i);
      var num := "";
      if p.toMove == White {
        num := MoveNumber(p);
      }
      var san := Algebraic(p, m);
      EntryIs(p, m, num, san);
      assert es[i] == es[i..][0] == num + san;
      ghost var before := s;
      s := s + (num + san);
      if i < |ms| - 1 {
        s := s + " ";
        p := Make(p, m);
        assert es[i + 1..] == es[i..][1..];
      }
      assert s == before + es[i] + (if i < |ms| - 1 then " " else "");
      JoinPad(lead, es, i);
    }
    assert es[..|ms|] == es;
    TextOfIs(pos, ms, lead);
  }

  /** One more entry of the line: the entry, then a space unless it is the last. */
  lemma JoinPad(lead: string, es: seq<string>, i: nat)
    requires i < |es|
    ensures lead + Join(es[..i], ' ') + (if 0 < i < |es| then " " else "") + es[i] + (if i < |es| - 1 then " " else "") ==
      lead + Join(es[..i + 1], ' ') + (if 0 < i + 1 < |es| then " " else "")
  {
    JoinStep(es, i, ' ');
    hide Join;
    var a, b := Join(es[..i], ' '), (if i < |es| - 1 then " " else "");
    assert (if 0 < i < |es| then " " else "") == (if i == 0 then "" else [' ']);
    assert lead + a + (if i == 0 then "" else [' ']) + es[i] + b == lead + (a + (if i == 0 then "" else [' ']) + es[i]) + b;
  }

  lemma TextOfIs(pos: Position, ms: seq<Move>, lead: string)
    requires Playable(pos) && AllDefined(ms)
    requires lead == if pos.toMove == Black then MoveNumber(pos) else ""
    ensures TextOf(pos, ms) == lead + Join(Entries(pos, ms), ' ')
  {
  }
}

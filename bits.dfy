/**
 * Squares and bitboards.
 *
 * The engine stores a bitboard as a 64-bit word whose bit i stands for square i
 * (a1 = 0, b1 = 1, ..., h8 = 63). Here a board is the sequence of those 64
 * bits, and each word operation is the function on sequences it computes.
 */
module Bits {

  /** Go's `Square byte`: arithmetic on it wraps modulo 256; only 0..63 are squares. */
  type Square = s: int | 0 <= s < 256

  /** The 64 bits of a bitboard word, least significant first. */
  type Board = b: seq<bool> | |b| == 64 witness seq(64, _ => false)

  /** The word 0. */
  function Empty(): Board { seq(64, _ => false) }

  /** Whether square s is set in b; a byte value outside the board is never set. */
  predicate Has(b: Board, s: Square)
  {
    s < 64 && b[s]
  }

  lemma EmptyHas(s: Square)
    ensures !Has(Empty(), s)
  {
  }

  /** `b != 0`: some bit of b is set. */
  predicate NonZero(b: Board)
  {
    exists i :: 0 <= i < 64 && b[i]
  }

  /** A board is zero exactly when it is the empty board. */
  lemma NonZeroEmpty(b: Board)
    ensures !NonZero(b) <==> b == Empty()
  {
    if !NonZero(b) {
      assert b == Empty();
    }
  }

  /** Two boards are equal when they hold the same squares. */
  /** No square is set in the empty board. */
  lemma EmptyNone()
    ensures forall k :: 0 <= k < 64 ==> !Empty()[k]
  {
  }

  lemma BoardExt(a: Board, b: Board)
    requires forall s: Square :: s < 64 ==> (Has(a, s) <==> Has(b, s))
    ensures a == b
  {
    forall i | 0 <= i < 64
      ensures a[i] == b[i]
    {
      assert Has(a, i) <==> Has(b, i);
    }
  }

  // ---------------------------------------------------------------- square arithmetic

  /** `Square.Rank`: `s >> 3`. */
  function Rank(s: Square): (r: Square)
    ensures 8 * r <= s < 8 * r + 8
    ensures s < 64 ==> r < 8
  {
    s / 8
  }

  /** `Square.File`: `s & 7`. */
  function File(s: Square): (f: Square)
    ensures f < 8
    ensures s == 8 * Rank(s) + f
  {
    s % 8
  }

  /** `Square.Diagonal`: 7 + rank - file, from 0 (h1) to 14 (a8). */
  function Diagonal(s: Square): (d: Square)
    ensures s < 64 ==> d <= 14
    ensures d + File(s) == 7 + Rank(s)
  {
    7 + Rank(s) - File(s)
  }

  /** `Square.AntiDiagonal`: rank + file, from 0 (a1) to 14 (h8). */
  function AntiDiagonal(s: Square): (d: Square)
    ensures s < 64 ==> d <= 14
    ensures d - File(s) == Rank(s)
  {
    Rank(s) + File(s)
  }

  /** The rank and file of a square determine it. */
  lemma RankFileDetermine(s: Square, t: Square)
    requires Rank(s) == Rank(t) && File(s) == File(t)
    ensures s == t
  {
  }

  /** A step to the north-east stays on the diagonal, a step to the north-west on the anti-diagonal. */
  lemma DiagonalSteps(s: Square)
    requires s < 56
    ensures File(s) < 7 ==> Diagonal(s + 9) == Diagonal(s)
    ensures File(s) > 0 ==> AntiDiagonal(s + 7) == AntiDiagonal(s)
  {
    if File(s) < 7 {
      Coordinates(s + 9, Rank(s) + 1, File(s) + 1);
    }
    if File(s) > 0 {
      Coordinates(s + 7, Rank(s) + 1, File(s) - 1);
    }
  }

  /** A square's rank and file are the only ones that name it. */
  lemma Coordinates(s: Square, r: int, f: int)
    requires 0 <= f < 8 && s == 8 * r + f
    ensures Rank(s) == r && File(s) == f
  {
  }

  /** The corner squares: ranks and files both reach 7, so the range is 0..7 inclusive. */
  lemma CornerCoordinates()
    ensures Rank(63) == 7 && File(63) == 7 && Diagonal(7) == 0 && Diagonal(56) == 14
    ensures AntiDiagonal(0) == 0 && AntiDiagonal(63) == 14
  {
  }

  /** `Square.Board`: `1 << s`, which is the word 0 when s >= 64. */
  function SquareBoard(s: Square): (r: Board)
    ensures forall t: Square :: Has(r, t) <==> s < 64 && t == s
  {
    seq(64, i requires 0 <= i < 64 => i == s)
  }

  lemma SquareBoardOff(s: Square)
    requires s >= 64
    ensures SquareBoard(s) == Empty()
  {
  }

  // ---------------------------------------------------------------- word operators

  /** `^b` */
  function Not(a: Board): (r: Board)
    ensures forall i :: 0 <= i < 64 ==> r[i] == !a[i]
  {
    seq(64, i requires 0 <= i < 64 => !a[i])
  }

  /** `a & b` */
  function And(a: Board, b: Board): (r: Board)
    ensures forall i :: 0 <= i < 64 ==> r[i] == (a[i] && b[i])
  {
    seq(64, i requires 0 <= i < 64 => a[i] && b[i])
  }

  /** `a | b` */
  function Or(a: Board, b: Board): (r: Board)
    ensures forall i :: 0 <= i < 64 ==> r[i] == (a[i] || b[i])
  {
    seq(64, i requires 0 <= i < 64 => a[i] || b[i])
  }

  /** `a ^ b` */
  function Xor(a: Board, b: Board): (r: Board)
  {
    seq(64, i requires 0 <= i < 64 => a[i] != b[i])
  }

  /** `a &^ b` */
  function AndNot(a: Board, b: Board): (r: Board)
    ensures forall i :: 0 <= i < 64 ==> r[i] == (a[i] && !b[i])
  {
    seq(64, i requires 0 <= i < 64 => a[i] && !b[i])
  }

  /** `b << k`: bits move towards h8 and fall off the top. */
  function Shl(b: Board, k: nat): (r: Board)
    ensures forall i :: 0 <= i < 64 ==> r[i] == (k <= i && b[i - k])
  {
    seq(64, i requires 0 <= i < 64 => k <= i && b[i - k])
  }

  /** `b >> k`: bits move towards a1 and fall off the bottom. */
  function Shr(b: Board, k: nat): (r: Board)
    ensures forall i :: 0 <= i < 64 ==> r[i] == (i + k < 64 && b[i + k])
  {
    seq(64, i requires 0 <= i < 64 => i + k < 64 && b[i + k])
  }

  /** The empty board is the zero of `&` and the identity of `|`. */
  lemma EmptyIdentities(a: Board)
    ensures And(Empty(), a) == Empty() && And(a, Empty()) == Empty()
    ensures Or(a, Empty()) == a && Or(Empty(), a) == a
  {
    assert And(Empty(), a) == Empty();
    assert And(a, Empty()) == Empty();
    assert Or(a, Empty()) == a;
    assert Or(Empty(), a) == a;
  }

  /** `^` is associative and commutative, the empty board is its identity, and every board is its own inverse. */
  lemma XorLaws(a: Board, b: Board, c: Board)
    ensures Xor(Xor(a, b), c) == Xor(a, Xor(b, c))
    ensures Xor(a, b) == Xor(b, a)
    ensures Xor(a, Empty()) == a && Xor(Empty(), a) == a
    ensures Xor(a, a) == Empty()
  {
    assert Xor(Xor(a, b), c) == Xor(a, Xor(b, c));
    assert Xor(a, b) == Xor(b, a);
    assert Xor(a, Empty()) == a;
    assert Xor(Empty(), a) == a;
    assert Xor(a, a) == Empty();
  }

  /** Masking a single square keeps it or clears it. */
  lemma AndSquare(s: Square, e: Board)
    requires s < 64
    ensures And(SquareBoard(s), e) == if e[s] then SquareBoard(s) else Empty()
  {
    forall i | 0 <= i < 64
      ensures And(SquareBoard(s), e)[i] == (if e[s] then SquareBoard(s) else Empty())[i]
    {
      assert SquareBoard(s)[i] <==> i == s by { assert Has(SquareBoard(s), i) <==> i == s; }
    }
  }

  /** Toggling a square changes that square and no other. */
  lemma XorSquare(b: Board, s: Square)
    requires s < 64
    ensures Xor(b, SquareBoard(s)) == b[s := !b[s]]
  {
  }

  // ---------------------------------------------------------------- files and ranks

  /** `AFile`: 0x0101010101010101. */
  function AFile(): Board
  {
    seq(64, i => i % 8 == 0)
  }

  /** `Rank1`: 0xff. */
  function Rank1(): Board
  {
    seq(64, i => i < 8)
  }

  /** `AFile << f`, the masks AFile..HFile (`Files[f]`). */
  function FileMask(f: Square): (m: Board)
    requires f < 8
    ensures forall s: Square :: Has(m, s) <==> s < 64 && File(s) == f
  {
    Shl(AFile(), f)
  }

  /** `Rank1 << (8 * r)`, the masks Rank1..Rank8 (`Ranks[r]`). */
  function RankMask(r: Square): (m: Board)
    requires r < 8
    ensures forall s: Square :: Has(m, s) <==> s < 64 && Rank(s) == r
  {
    Shl(Rank1(), 8 * r)
  }


  // ---------------------------------------------------------------- lowest set bit

  function Scan(b: Board, i: nat): (n: nat)
    requires i <= 64
    ensures i <= n <= 64
    ensures n < 64 ==> b[n]
    ensures forall j :: i <= j < n ==> !b[j]
    decreases 64 - i
  {
    if i == 64 then 64 else if b[i] then i else Scan(b, i + 1)
  }

  /** `LS1BIndex`: the number of trailing zero bits, 64 for the empty board. */
  function LS1BIndex(b: Board): (n: Square)
    ensures n <= 64
    ensures n < 64 ==> b[n]
    ensures forall j :: 0 <= j < n ==> !b[j]
  {
    Scan(b, 0)
  }

  lemma LS1BIndexEmpty(b: Board)
    ensures LS1BIndex(b) == 64 <==> b == Empty()
  {
    EmptyNone();
    if LS1BIndex(b) == 64 {
      BoardExt(b, Empty());
    }
  }

  /** `LS1BIndex(s.Board()) == s` for every square of the board. */
  lemma LS1BIndexSquareBoard(s: Square)
    requires s < 64
    ensures LS1BIndex(SquareBoard(s)) == s
  {
    assert SquareBoard(s)[s];
  }

  /** `LS1B`: the board holding only the lowest set bit of b. Go panics on the empty board. */
  function LS1B(b: Board): (r: Board)
    requires b != Empty()
    ensures forall t: Square :: Has(r, t) <==> t == LS1BIndex(b)
    ensures LS1BIndex(b) < 64
  {
    LS1BIndexEmpty(b);
    seq(64, i requires 0 <= i < 64 => b[i] && forall j :: 0 <= j < i ==> !b[j])
  }

  /** `ResetLS1B`: b without its lowest set bit. Go panics on the empty board. */
  function ResetLS1B(b: Board): (r: Board)
    requires b != Empty()
    ensures forall i :: 0 <= i < 64 ==> r[i] == (b[i] && i != LS1BIndex(b))
    ensures Xor(r, LS1B(b)) == b
  {
    seq(64, i requires 0 <= i < 64 => b[i] && exists j :: 0 <= j < i && b[j])
  }

  // ---------------------------------------------------------------- numeric value

  function Pow2(n: nat): (p: nat)
    ensures p >= 1
  {
    if n == 0 then 1 else 2 * Pow2(n - 1)
  }

  function ValueBelow(b: Board, k: nat): nat
    requires k <= 64
  {
    if k == 0 then 0 else ValueBelow(b, k - 1) + (if b[k - 1] then Pow2(k - 1) else 0)
  }

  /** The unsigned number a word denotes. */
  function Value(b: Board): nat
  {
    ValueBelow(b, 64)
  }

  /** The values of two boards without common bits add up to the value of their union. */
  lemma {:induction false} ValueDisjointUnion(a: Board, c: Board, d: Board, k: nat)
    requires k <= 64
    requires forall i :: 0 <= i < 64 ==> (a[i] <==> c[i] || d[i]) && !(c[i] && d[i])
    ensures ValueBelow(a, k) == ValueBelow(c, k) + ValueBelow(d, k)
  {
    if k > 0 {
      ValueDisjointUnion(a, c, d, k - 1);
    }
  }

  /** `ResetLS1B(b) == b - LS1B(b)`: clearing the lowest bit subtracts its value. */
  lemma ResetLS1BSubtracts(b: Board)
    requires b != Empty()
    ensures Value(ResetLS1B(b)) == Value(b) - Value(LS1B(b))
  {
    ValueDisjointUnion(b, ResetLS1B(b), LS1B(b), 64);
  }

  // ---------------------------------------------------------------- set squares in order

  /** The set squares of b from square i upwards, in ascending order. */
  function BitsFrom(b: Board, i: nat): (r: seq<Square>)
    requires i <= 64
    ensures forall s :: s in r <==> i <= s < 64 && b[s]
    decreases 64 - i
  {
    if i == 64 then [] else if b[i] then [i] + BitsFrom(b, i + 1) else BitsFrom(b, i + 1)
  }

  predicate Ascending(r: seq<Square>)
  {
    forall j, k :: 0 <= j < k < |r| ==> r[j] < r[k]
  }

  lemma {:induction false} BitsFromAscending(b: Board, i: nat)
    requires i <= 64
    ensures Ascending(BitsFrom(b, i))
    decreases 64 - i
  {
    if i < 64 {
      BitsFromAscending(b, i + 1);
      var r := BitsFrom(b, i + 1);
      assert forall k :: 0 <= k < |r| ==> r[k] in r;
    }
  }

  lemma {:induction false} BitsFromSkip(b: Board, i: nat, j: nat)
    requires i <= j <= 64
    requires forall k :: i <= k < j ==> !b[k]
    ensures BitsFrom(b, i) == BitsFrom(b, j)
    decreases j - i
  {
    if i < j {
      BitsFromSkip(b, i + 1, j);
    }
  }

  lemma {:induction false} BitsFromAgree(a: Board, b: Board, i: nat)
    requires i <= 64
    requires forall k :: i <= k < 64 ==> a[k] == b[k]
    ensures BitsFrom(a, i) == BitsFrom(b, i)
    decreases 64 - i
  {
    if i < 64 {
      BitsFromAgree(a, b, i + 1);
    }
  }

  /** The set squares of b in ascending order: the order `rangeBits` visits them in. */
  function BitsOf(b: Board): (r: seq<Square>)
    ensures forall s: Square :: s in r <==> Has(b, s)
    ensures forall i :: 0 <= i < |r| ==> Has(b, r[i])
    ensures Ascending(r)
  {
    BitsFromAscending(b, 0);
    BitsFrom(b, 0)
  }

  /** Unfolding one step of `rangeBits`: the lowest square, then the rest of the board. */
  lemma BitsOfReset(b: Board)
    requires b != Empty()
    ensures BitsOf(b) == [LS1BIndex(b)] + BitsOf(ResetLS1B(b))
  {
    var n := LS1BIndex(b);
    var r := ResetLS1B(b);
    BitsFromSkip(b, 0, n);
    BitsFromSkip(r, 0, n + 1);
    BitsFromAgree(b, r, n + 1);
  }

  lemma {:induction false} BitsFromEmpty(i: nat)
    requires i <= 64
    ensures BitsFrom(Empty(), i) == []
    decreases 64 - i
  {
    if i < 64 {
      BitsFromEmpty(i + 1);
    }
  }

  lemma BitsOfEmpty()
    ensures BitsOf(Empty()) == []
  {
    BitsFromEmpty(0);
  }

  lemma BitsOfSquare(s: Square)
    requires s < 64
    ensures BitsOf(SquareBoard(s)) == [s]
  {
    assert SquareBoard(s)[s] != Empty()[s];
    LS1BIndexEmpty(SquareBoard(s));
    BitsOfReset(SquareBoard(s));
    var r := ResetLS1B(SquareBoard(s));
    BoardExt(r, Empty());
    BitsOfEmpty();
  }

  /**
   * `rangeBits(board, f)` calls f on each set square of board, lowest first,
   * clearing the lowest bit after each call; visited lists those squares.
   */
  method RangeBits(board: Board) returns (visited: seq<Square>)
    ensures visited == BitsOf(board)
  {
    visited := [];
    var bits := board;
    while bits != Empty()
      invariant BitsOf(board) == visited + BitsOf(bits)
      decreases |BitsOf(bits)|
    {
      BitsOfReset(bits);
      visited := visited + [LS1BIndex(bits)];
      bits := ResetLS1B(bits);
    }
    BitsOfEmpty();
  }

  // ---------------------------------------------------------------- population count

  function CountFrom(b: Board, i: nat): (n: nat)
    requires i <= 64
    ensures n <= 64 - i
    decreases 64 - i
  {
    if i == 64 then 0 else (if b[i] then 1 else 0) + CountFrom(b, i + 1)
  }

  lemma {:induction false} CountFromBits(b: Board, i: nat)
    requires i <= 64
    ensures CountFrom(b, i) == |BitsFrom(b, i)|
    decreases 64 - i
  {
    if i < 64 {
      CountFromBits(b, i + 1);
    }
  }

  /** `PopCount`: the number of set bits, which is the number of squares `rangeBits` visits. */
  function PopCount(b: Board): (n: nat)
    ensures n <= 64
    ensures n == |BitsOf(b)|
  {
    CountFromBits(b, 0);
    CountFrom(b, 0)
  }

  lemma PopCountEmpty()
    ensures PopCount(Empty()) == 0
  {
    BitsOfEmpty();
  }

  /** A square's board has exactly one bit. */
  lemma PopCountSquare(s: Square)
    requires s < 64
    ensures PopCount(SquareBoard(s)) == 1
  {
    BitsOfSquare(s);
  }

  /** Clearing the lowest bit lowers the count by one. */
  lemma PopCountReset(b: Board)
    requires b != Empty()
    ensures PopCount(ResetLS1B(b)) == PopCount(b) - 1
  {
    BitsOfReset(b);
  }

  lemma {:induction false} CountFromZero(b: Board, i: nat)
    requires i <= 64
    ensures CountFrom(b, i) == 0 <==> forall k :: i <= k < 64 ==> !b[k]
    decreases 64 - i
  {
    if i < 64 {
      CountFromZero(b, i + 1);
    }
  }

  /** Only the empty board has no set bit. */
  lemma PopCountZero(b: Board)
    ensures PopCount(b) == 0 <==> b == Empty()
  {
    CountFromZero(b, 0);
    EmptyNone();
    assert PopCount(b) == CountFrom(b, 0);
    if PopCount(b) == 0 {
      forall k | 0 <= k < 64 ensures b[k] == Empty()[k] {
        assert !b[k];
      }
    }
  }

  lemma {:induction false} CountFromSet(b: Board, s: nat, i: nat)
    requires s < 64 && !b[s] && i <= 64
    ensures CountFrom(b[s := true], i) == CountFrom(b, i) + (if i <= s then 1 else 0)
    decreases 64 - i
  {
    if i < 64 {
      CountFromSet(b, s, i + 1);
    }
  }

  /** Setting a clear bit raises the count by one. */
  lemma PopCountSet(b: Board, s: Square)
    requires s < 64 && !b[s]
    ensures PopCount(b[s := true]) == PopCount(b) + 1
  {
    CountFromSet(b, s, 0);
  }

  lemma {:induction false} CountFromOne(b: Board, t: nat, i: nat)
    requires i <= t < 64 && b[t]
    ensures CountFrom(b, i) >= 1
    decreases 64 - i
  {
    if i < t {
      CountFromOne(b, t, i + 1);
    }
  }

  lemma {:induction false} CountFromTwo(b: Board, s: nat, t: nat, i: nat)
    requires i <= s < t < 64 && b[s] && b[t]
    ensures CountFrom(b, i) >= 2
    decreases 64 - i
  {
    if i < s {
      CountFromTwo(b, s, t, i + 1);
    } else {
      CountFromOne(b, t, i + 1);
    }
  }

  /** Two different set bits make a count of at least two. */
  lemma PopCountTwo(b: Board, s: Square, t: Square)
    requires Has(b, s) && Has(b, t) && s != t
    ensures PopCount(b) >= 2
  {
    if s < t {
      CountFromTwo(b, s, t, 0);
    } else {
      CountFromTwo(b, t, s, 0);
    }
  }
}

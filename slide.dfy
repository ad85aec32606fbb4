/**
 * `attackFill`, the flood fill behind the sliding pieces: repeatedly shift the
 * pieces one step and keep what lands on an empty square; the attacked squares
 * are one more shift of everything the fill reached.
 *
 * The fill is specified square by square through the rank-and-file geometry of
 * `Step`, so that the loop, which works with the shifts, is proved against a
 * definition that does not mention them.
 */
module Slide {
  import opened Bits
  import opened Shifts

  // ---------------------------------------------------------------- fill levels

  /** Whether the fill holds square t after n passes: `piece` after the loop body has run n times. */
  predicate InLevel(d: Dir, piece: Board, empty: Board, n: nat, t: int)
    requires 0 <= t < 64
  {
    if n == 0 then piece[t]
    else
      var u := Step(Reverse(d), t);
      empty[t] && u >= 0 && InLevel(d, piece, empty, n - 1, u)
  }

  /** Whether some level before n holds square t: `fill` after the loop body has run n times. */
  predicate InBelow(d: Dir, piece: Board, empty: Board, n: nat, t: int)
    requires 0 <= t < 64
  {
    n > 0 && (InBelow(d, piece, empty, n - 1, t) || InLevel(d, piece, empty, n - 1, t))
  }

  function LevelBoard(d: Dir, piece: Board, empty: Board, n: nat): Board
  {
    seq(64, t requires 0 <= t < 64 => InLevel(d, piece, empty, n, t))
  }

  function BelowBoard(d: Dir, piece: Board, empty: Board, n: nat): Board
  {
    seq(64, t requires 0 <= t < 64 => InBelow(d, piece, empty, n, t))
  }

  /** No walk across the board is longer than seven steps, so eight passes of the fill reach everything. */
  const MaxLevels: nat := 8

  /** What `attackFill(piece, empty, shift)` returns: every square one step beyond a square of the first eight levels. */
  function FillOf(d: Dir, piece: Board, empty: Board): Board
  {
    seq(64, t requires 0 <= t < 64 =>
      var u := Step(Reverse(d), t);
      u >= 0 && InBelow(d, piece, empty, MaxLevels, u))
  }

  /** How far s already lies in direction d: the rank, the file, or their mirror images. */
  function Progress(d: Dir, s: int): (p: int)
    requires 0 <= s < 64
    ensures 0 <= p < 8
  {
    if DRank(d) == 1 then s / 8
    else if DRank(d) == -1 then 7 - s / 8
    else if DFile(d) == 1 then s % 8
    else 7 - s % 8
  }

  /** Every step in direction d advances the progress by one. */
  lemma StepProgress(d: Dir, s: int)
    requires 0 <= s < 64 && Step(d, s) >= 0
    ensures Progress(d, Step(d, s)) == Progress(d, s) + 1
  {
  }

  /** A square of level n has progress at least n. */
  lemma {:induction false} LevelProgress(d: Dir, piece: Board, empty: Board, n: nat, t: int)
    requires 0 <= t < 64
    ensures InLevel(d, piece, empty, n, t) ==> Progress(d, t) >= n
  {
    if n > 0 && InLevel(d, piece, empty, n, t) {
      var u := Step(Reverse(d), t);
      LevelProgress(d, piece, empty, n - 1, u);
      StepReverse(d, u, t);
      StepProgress(d, u);
    }
  }

  /** Once a level is empty every later level is empty. */
  lemma {:induction false} LevelDead(d: Dir, piece: Board, empty: Board, n: nat, m: nat, t: int)
    requires n <= m && 0 <= t < 64
    requires forall u :: 0 <= u < 64 ==> !InLevel(d, piece, empty, n, u)
    ensures !InLevel(d, piece, empty, m, t)
  {
    if m > n {
      var u := Step(Reverse(d), t);
      if u >= 0 {
        LevelDead(d, piece, empty, n, m - 1, u);
      }
    }
  }

  /** Once a level is empty the union of the levels stops growing. */
  lemma {:induction false} BelowStable(d: Dir, piece: Board, empty: Board, n: nat, m: nat, t: int)
    requires n <= m && 0 <= t < 64
    requires forall u :: 0 <= u < 64 ==> !InLevel(d, piece, empty, n, u)
    ensures InBelow(d, piece, empty, m, t) == InBelow(d, piece, empty, n, t)
  {
    if m > n {
      BelowStable(d, piece, empty, n, m - 1, t);
      LevelDead(d, piece, empty, n, m - 1, t);
    }
  }

  /** One pass of the loop body: the shifts compute the next level and the next union. */
  lemma FillStep(d: Dir, piece: Board, empty: Board, n: nat)
    ensures And(Shift(d, LevelBoard(d, piece, empty, n)), empty) == LevelBoard(d, piece, empty, n + 1)
    ensures Or(BelowBoard(d, piece, empty, n), LevelBoard(d, piece, empty, n)) == BelowBoard(d, piece, empty, n + 1)
  {
    var level := LevelBoard(d, piece, empty, n);
    forall t | 0 <= t < 64
      ensures And(Shift(d, level), empty)[t] == InLevel(d, piece, empty, n + 1, t)
    {
      ShiftStep(d, level, t);
    }
  }

  /** After the loop: the last shift of the union gives `FillOf`, whenever the loop stopped. */
  lemma FillFinal(d: Dir, piece: Board, empty: Board, n: nat)
    requires n <= MaxLevels
    requires forall u :: 0 <= u < 64 ==> !InLevel(d, piece, empty, n, u)
    ensures Shift(d, BelowBoard(d, piece, empty, n)) == FillOf(d, piece, empty)
  {
    var below := BelowBoard(d, piece, empty, n);
    forall t | 0 <= t < 64
      ensures Shift(d, below)[t] == FillOf(d, piece, empty)[t]
    {
      ShiftStep(d, below, t);
      var u := Step(Reverse(d), t);
      if u >= 0 {
        BelowStable(d, piece, empty, n, MaxLevels, u);
      }
    }
  }

  /**
   * `attackFill`: loop while pieces remain, adding them to the fill and moving
   * them one step onto empty squares; return the fill shifted once more. The
   * loop runs at most eight times, because every pass moves the pieces one rank
   * or file further.
   */
  method AttackFill(piece: Board, empty: Board, d: Dir) returns (r: Board)
    ensures r == FillOf(d, piece, empty)
  {
    var fill := Empty();
    var p := piece;
    ghost var n: nat := 0;
    assert p == LevelBoard(d, piece, empty, 0);
    assert fill == BelowBoard(d, piece, empty, 0);
    hide *;
    while NonZero(p)
      invariant n <= MaxLevels
      invariant p == LevelBoard(d, piece, empty, n)
      invariant fill == BelowBoard(d, piece, empty, n)
      decreases MaxLevels - n
    {
      if n == MaxLevels {
        LevelsEnd(d, piece, empty);
        assert false;
      }
      FillStep(d, piece, empty, n);
      fill, p := Or(fill, p), And(Shift(d, p), empty);
      n := n + 1;
    }
    LevelsDone(d, piece, empty, n);
    r := Shift(d, fill);
  }

  /** The level after the last pass of the fill is empty. */
  lemma LevelsEnd(d: Dir, piece: Board, empty: Board)
    ensures !NonZero(LevelBoard(d, piece, empty, MaxLevels))
  {
    var level := LevelBoard(d, piece, empty, MaxLevels);
    if NonZero(level) {
      var i :| 0 <= i < 64 && level[i];
      LevelProgress(d, piece, empty, MaxLevels, i);
    }
  }

  /** Once a level is empty, the fill shifted once more is `FillOf`. */
  lemma LevelsDone(d: Dir, piece: Board, empty: Board, n: nat)
    requires n <= MaxLevels && !NonZero(LevelBoard(d, piece, empty, n))
    ensures Shift(d, BelowBoard(d, piece, empty, n)) == FillOf(d, piece, empty)
  {
    var level := LevelBoard(d, piece, empty, n);
    forall u | 0 <= u < 64
      ensures !InLevel(d, piece, empty, n, u)
    {
      assert !level[u];
    }
    FillFinal(d, piece, empty, n);
  }

  // ---------------------------------------------------------------- a single slider

  /** The square k steps from s in direction d, or -1 once the walk has left the board. */
  function Walk(d: Dir, s: int, k: nat): (t: int)
    requires 0 <= s < 64
    ensures -1 <= t < 64
  {
    if k == 0 then s
    else
      var w := Walk(d, s, k - 1);
      if w < 0 then -1 else Step(d, w)
  }

  /** Each step of a walk advances the progress by one. */
  lemma {:induction false} WalkProgress(d: Dir, s: int, k: nat)
    requires 0 <= s < 64
    ensures Walk(d, s, k) >= 0 ==> Progress(d, Walk(d, s, k)) == Progress(d, s) + k
  {
    if k > 0 && Walk(d, s, k) >= 0 {
      WalkProgress(d, s, k - 1);
      StepProgress(d, Walk(d, s, k - 1));
    }
  }

  /** A walk never revisits a square. */
  lemma WalkInjective(d: Dir, s: int, j: nat, k: nat)
    requires 0 <= s < 64 && Walk(d, s, j) >= 0 && Walk(d, s, j) == Walk(d, s, k)
    ensures j == k
  {
    WalkProgress(d, s, j);
    WalkProgress(d, s, k);
  }

  /**
   * The first n squares of the walk from s are on the board and empty, so a
   * slider on s reaches the n-th of them.
   */
  predicate Open(d: Dir, s: int, empty: Board, n: nat)
    requires 0 <= s < 64
    ensures Open(d, s, empty, n) ==> Walk(d, s, n) >= 0
  {
    n == 0 || (Open(d, s, empty, n - 1) && Walk(d, s, n) >= 0 && empty[Walk(d, s, n)])
  }

  /** An open walk is open at every earlier square. */
  lemma {:induction false} OpenPrefix(d: Dir, s: int, empty: Board, n: nat, j: nat)
    requires 0 <= s < 64 && Open(d, s, empty, n) && 1 <= j <= n
    ensures Walk(d, s, j) >= 0 && empty[Walk(d, s, j)]
  {
    if j < n {
      OpenPrefix(d, s, empty, n - 1, j);
    }
  }

  /** From a single square, level n of the fill is the n-th square of the walk, while the walk is open. */
  lemma {:induction false} LevelSingle(d: Dir, s: Square, empty: Board, n: nat, t: int)
    requires s < 64 && 0 <= t < 64
    ensures InLevel(d, SquareBoard(s), empty, n, t) <==> Open(d, s, empty, n) && Walk(d, s, n) == t
  {
    if n == 0 {
      assert SquareBoard(s)[t] <==> t == s by { assert Has(SquareBoard(s), t) <==> t == s; }
    } else {
      var piece := SquareBoard(s);
      var u := Step(Reverse(d), t);
      var w := Walk(d, s, n - 1);
      assert InLevel(d, piece, empty, n, t) == (empty[t] && u >= 0 && InLevel(d, piece, empty, n - 1, u));
      assert Open(d, s, empty, n) == (Open(d, s, empty, n - 1) && Walk(d, s, n) >= 0 && empty[Walk(d, s, n)]);
      assert Walk(d, s, n) == if w < 0 then -1 else Step(d, w);
      hide InLevel, Open, Walk, Step, Reverse, SquareBoard;
      if u >= 0 {
        LevelSingle(d, s, empty, n - 1, u);
      }
      if w >= 0 {
        StepReverse(d, w, t);
      }
    }
  }

  /** A square of a level below n is in the union of the levels below n. */
  lemma {:induction false} BelowOfLevel(d: Dir, piece: Board, empty: Board, n: nat, j: nat, u: int)
    requires 0 <= u < 64 && j < n && InLevel(d, piece, empty, j, u)
    ensures InBelow(d, piece, empty, n, u)
  {
    if j < n - 1 {
      BelowOfLevel(d, piece, empty, n - 1, j, u);
    }
  }

  /** A square of the union of the levels below n is in one of them. */
  lemma {:induction false} LevelOfBelow(d: Dir, piece: Board, empty: Board, n: nat, u: int) returns (j: nat)
    requires 0 <= u < 64 && InBelow(d, piece, empty, n, u)
    ensures j < n && InLevel(d, piece, empty, j, u)
  {
    if InLevel(d, piece, empty, n - 1, u) {
      j := n - 1;
    } else {
      j := LevelOfBelow(d, piece, empty, n - 1, u);
    }
  }

  /**
   * The squares a slider on s attacks in direction d, by the rules of chess:
   * each square k steps away (k >= 1) whose k - 1 predecessors are all empty.
   * This includes the first occupied square, friend or foe.
   */
  ghost predicate RayHit(d: Dir, s: int, empty: Board, k: nat, t: int)
    requires 0 <= s < 64
  {
    1 <= k <= MaxLevels && Walk(d, s, k) == t && Open(d, s, empty, k - 1)
  }

  ghost function Ray(d: Dir, s: Square, empty: Board): Board
    requires s < 64
  {
    seq(64, t requires 0 <= t < 64 => exists k: nat :: RayHit(d, s, empty, k, t))
  }

  /** `attackFill` from a single square computes exactly the ray. */
  lemma FillRay(d: Dir, s: Square, empty: Board)
    requires s < 64
    ensures FillOf(d, SquareBoard(s), empty) == Ray(d, s, empty)
  {
    forall t | 0 <= t < 64
      ensures FillOf(d, SquareBoard(s), empty)[t] == Ray(d, s, empty)[t]
    {
      FillRayAt(d, s, empty, t);
    }
  }

  lemma FillRayAt(d: Dir, s: Square, empty: Board, t: int)
    requires s < 64 && 0 <= t < 64
    ensures FillOf(d, SquareBoard(s), empty)[t] <==> exists k: nat :: RayHit(d, s, empty, k, t)
  {
    if FillOf(d, SquareBoard(s), empty)[t] {
      var k := FillRayHit(d, s, empty, t);
    }
    if exists k: nat :: RayHit(d, s, empty, k, t) {
      var k: nat :| RayHit(d, s, empty, k, t);
      HitFillRay(d, s, empty, k, t);
    }
  }

  /** Every square of the fill is hit by the walk. */
  lemma FillRayHit(d: Dir, s: Square, empty: Board, t: int) returns (k: nat)
    requires s < 64 && 0 <= t < 64 && FillOf(d, SquareBoard(s), empty)[t]
    ensures RayHit(d, s, empty, k, t)
  {
    var u := Step(Reverse(d), t);
    var j := LevelOfBelow(d, SquareBoard(s), empty, MaxLevels, u);
    FillRayWitness(d, s, empty, j, t);
    k := j + 1;
  }

  /** Every square the walk hits is in the fill. */
  lemma HitFillRay(d: Dir, s: Square, empty: Board, k: nat, t: int)
    requires s < 64 && 0 <= t < 64 && RayHit(d, s, empty, k, t)
    ensures FillOf(d, SquareBoard(s), empty)[t]
  {
    FillRayWitness(d, s, empty, k - 1, t);
    BelowOfLevel(d, SquareBoard(s), empty, MaxLevels, k - 1, Step(Reverse(d), t));
  }

  /** Level j holds the square one step back from t exactly when the walk reaches t at step j + 1. */
  lemma FillRayWitness(d: Dir, s: Square, empty: Board, j: nat, t: int)
    requires s < 64 && 0 <= t < 64
    ensures var u := Step(Reverse(d), t);
      (u >= 0 && InLevel(d, SquareBoard(s), empty, j, u)) <==> (Walk(d, s, j + 1) == t && Open(d, s, empty, j))
  {
    var u := Step(Reverse(d), t);
    if u >= 0 {
      LevelSingle(d, s, empty, j, u);
    }
    var w := Walk(d, s, j);
    if w >= 0 {
      StepReverse(d, w, t);
    }
  }

  /** A slider never attacks its own square. */
  lemma RayExcludesOrigin(d: Dir, s: Square, empty: Board)
    requires s < 64
    ensures !Ray(d, s, empty)[s]
  {
    if Ray(d, s, empty)[s] {
      var k: nat :| RayHit(d, s, empty, k, s);
      WalkInjective(d, s, 0, k);
    }
  }

  /** A slider sees nothing beyond the first occupied square of its walk. */
  lemma RayStopsAtBlocker(d: Dir, s: Square, empty: Board, j: nat, k: nat)
    requires s < 64 && 1 <= j < k
    requires Walk(d, s, j) >= 0 && !empty[Walk(d, s, j)]
    requires Walk(d, s, k) >= 0
    ensures !Ray(d, s, empty)[Walk(d, s, k)]
  {
    var t := Walk(d, s, k);
    if Ray(d, s, empty)[t] {
      RayOpenBefore(d, s, empty, k);
      hide *;
      OpenPrefix(d, s, empty, k - 1, j);
    }
  }

  /** A square of the ray reached in k steps has an open walk up to step k - 1. */
  lemma RayOpenBefore(d: Dir, s: Square, empty: Board, k: nat)
    requires s < 64 && 1 <= k && Walk(d, s, k) >= 0 && Ray(d, s, empty)[Walk(d, s, k)]
    ensures Open(d, s, empty, k - 1)
  {
    var t := Walk(d, s, k);
    assert exists k': nat :: RayHit(d, s, empty, k', t);
    hide Ray;
    var k': nat :| RayHit(d, s, empty, k', t);
    assert Walk(d, s, k') == t && Open(d, s, empty, k' - 1);
    hide *;
    WalkInjective(d, s, k, k');
  }

  // ---------------------------------------------------------------- symmetry of rays

  /** k times a direction delta x in -1..1. */
  function Scale(k: int, x: int): int
  {
    if x == 1 then k else if x == -1 then -k else 0
  }

  /** The square at rank r and file f, or -1 off the board. */
  function Cell(r: int, f: int): int
  {
    if 0 <= r < 8 && 0 <= f < 8 then 8 * r + f else -1
  }

  /** A square's rank and file are read back from it. */
  lemma CellCoordinates(r: int, f: int)
    requires 0 <= r < 8 && 0 <= f < 8
    ensures Cell(r, f) / 8 == r && Cell(r, f) % 8 == f
  {
  }

  /** A walk of k steps moves the rank and the file by k times the direction's deltas. */
  lemma {:induction false} WalkCoordinates(d: Dir, s: int, k: nat)
    requires 0 <= s < 64
    ensures Walk(d, s, k) == Cell(Rank(s) + Scale(k, DRank(d)), File(s) + Scale(k, DFile(d)))
  {
    if k > 0 {
      WalkCoordinates(d, s, k - 1);
      WalkSucc(d, s, k);
    }
  }

  /** The step from k - 1 to k of `WalkCoordinates`. */
  lemma WalkSucc(d: Dir, s: int, k: nat)
    requires 0 <= s < 64 && k > 0
    requires Walk(d, s, k - 1) == Cell(Rank(s) + Scale(k - 1, DRank(d)), File(s) + Scale(k - 1, DFile(d)))
    ensures Walk(d, s, k) == Cell(Rank(s) + Scale(k, DRank(d)), File(s) + Scale(k, DFile(d)))
  {
    hide Step;
    var w := Walk(d, s, k - 1);
    var x, y := DRank(d), DFile(d);
    var r, f := Rank(s) + Scale(k - 1, x), File(s) + Scale(k - 1, y);
    var r', f' := Rank(s) + Scale(k, x), File(s) + Scale(k, y);
    assert Walk(d, s, k) == if w < 0 then -1 else Step(d, w);
    assert r' == r + x && f' == f + y && (!(0 <= r < 8 && 0 <= f < 8) ==> Cell(r', f') == -1) by {
      assert -1 <= x <= 1 && -1 <= y <= 1;
      ScaleSucc(k, x, Rank(s));
      ScaleSucc(k, y, File(s));
    }
    if 0 <= r < 8 && 0 <= f < 8 {
      assert Step(d, w) == Cell(r', f') by {
        StepFromCoordinates(d, r, f);
      }
    }
  }

  /** One more step adds the delta once more; a coordinate that has left 0..7 stays outside. */
  lemma ScaleSucc(k: nat, x: int, a: int)
    requires k >= 1 && -1 <= x <= 1 && 0 <= a < 8
    ensures Scale(k, x) == Scale(k - 1, x) + x
    ensures !(0 <= a + Scale(k - 1, x) < 8) ==> !(0 <= a + Scale(k, x) < 8)
  {
  }

  /** A step from the square at rank r and file f. */
  lemma StepFromCoordinates(d: Dir, r: int, f: int)
    requires 0 <= r < 8 && 0 <= f < 8
    ensures Step(d, Cell(r, f)) == Cell(r + DRank(d), f + DFile(d))
  {
    CellCoordinates(r, f);
  }

  /** Walking back from the end of a walk retraces it: the j-th square from s is the (k - j)-th from t. */
  lemma WalkReverse(d: Dir, s: int, k: nat, j: nat)
    requires 0 <= s < 64 && Walk(d, s, k) >= 0 && j <= k
    ensures Walk(Reverse(d), Walk(d, s, k), k - j) == Walk(d, s, j)
  {
    hide Step, Walk;
    var t := Walk(d, s, k);
    WalkCoordinates(d, s, k);
    WalkCoordinates(d, s, j);
    WalkCoordinates(Reverse(d), t, k - j);
    Coordinates(t, Rank(s) + Scale(k, DRank(d)), File(s) + Scale(k, DFile(d)));
  }

  /** A walk whose first n squares are all on the board and empty is open. */
  lemma {:induction false} OpenOfAll(d: Dir, s: int, empty: Board, n: nat)
    requires 0 <= s < 64
    requires forall j: nat :: 1 <= j <= n ==> Walk(d, s, j) >= 0 && empty[Walk(d, s, j)]
    ensures Open(d, s, empty, n)
  {
    if n > 0 {
      OpenOfAll(d, s, empty, n - 1);
    }
  }

  /** If the walk from s reaches t through empty squares, the reverse walk from t reaches s through the same squares. */
  lemma RayHitReverse(d: Dir, s: int, empty: Board, k: nat, t: int)
    requires 0 <= s < 64 && 0 <= t < 64 && RayHit(d, s, empty, k, t)
    ensures RayHit(Reverse(d), t, empty, k, s)
  {
    WalkReverse(d, s, k, 0);
    forall j: nat | 1 <= j <= k - 1
      ensures Walk(Reverse(d), t, j) >= 0 && empty[Walk(Reverse(d), t, j)]
    {
      ReverseOpenAt(d, s, empty, k, j);
    }
    OpenOfAll(Reverse(d), t, empty, k - 1);
  }

  /** The squares strictly between the ends of an open walk are empty when walked from either end. */
  lemma ReverseOpenAt(d: Dir, s: int, empty: Board, k: nat, j: nat)
    requires 0 <= s < 64 && 1 <= j < k && Open(d, s, empty, k - 1) && Walk(d, s, k) >= 0
    ensures Walk(Reverse(d), Walk(d, s, k), j) >= 0 && empty[Walk(Reverse(d), Walk(d, s, k), j)]
  {
    WalkReverse(d, s, k, k - j);
    OpenPrefix(d, s, empty, k - 1, k - j);
  }

  /** A slider on s attacks t in direction d exactly when a slider on t attacks s in the opposite direction. */
  lemma RaySymmetric(d: Dir, s: Square, t: Square, empty: Board)
    requires s < 64 && t < 64
    ensures Ray(d, s, empty)[t] <==> Ray(Reverse(d), t, empty)[s]
  {
    if Ray(d, s, empty)[t] {
      var k: nat :| RayHit(d, s, empty, k, t);
      RayHitReverse(d, s, empty, k, t);
    }
    if Ray(Reverse(d), t, empty)[s] {
      var k: nat :| RayHit(Reverse(d), t, empty, k, s);
      RayHitReverse(Reverse(d), t, empty, k, s);
      assert Reverse(Reverse(d)) == d;
    }
  }
}

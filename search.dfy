/**
 * The search of search.go: `negamax`, an alpha-beta search to a fixed depth
 * that scores checkmate as -evalInf, stalemate as 0 and a position at depth
 * 0 by its material from the mover's point of view, and `SearchPosition`,
 * which starts it with the widest window.
 *
 * Its reference is `Value`, the plain negamax (minimax) value of the game
 * tree to the same depth: `Negamax` agrees with `Value` inside its window
 * and is on the correct side of the window outside it.
 */
module Search {
  import opened Bits
  import opened Chess
  import opened Moves
  import opened Generate
  import opened Legality
  import opened MoveGen
  import opened Evaluation

  /** `evalInf`: the score of being checkmated is -evalInf. */
  const EvalInf := 50000

  /** Go's zero `Move`, which `negamax` returns when it does not choose a move. */
  const NullMove := Move(0, 0, None, None, false, None)

  function Max(x: int, y: int): (r: int)
    ensures r >= x && r >= y && (r == x || r == y)
  {
    if x >= y then x else y
  }

  /** x pulled into the window [lo, hi]. */
  function Clamp(lo: int, hi: int, x: int): (r: int)
    requires lo <= hi
    ensures lo <= r <= hi
    ensures lo <= x <= hi ==> r == x
    ensures x < lo ==> r == lo
    ensures x > hi ==> r == hi
  {
    if x < lo then lo else if x > hi then hi else x
  }

  // ---------------------------------------------------------------- the reference value

  /**
   * The negamax value of pos searched to `depth`: -evalInf when the mover is
   * checkmated, 0 on stalemate, the mover's material balance at depth 0, and
   * otherwise the best of the legal moves, each scored as minus the value of
   * the position it leads to.
   */
  ghost function Value(pos: Position, depth: nat): int
    requires Playable(pos)
    decreases depth, 0
  {
    if LegalList(pos) == [] then (if IsCheck(pos) then -EvalInf else 0)
    else if depth == 0 then Eval(pos) * EvalMult(pos.toMove)
    else
      LegalFilterAllLegal(pos, PseudoLegalList(pos));
      Best(pos, LegalList(pos), depth - 1)
  }

  /** The score of a legal move m: minus the value of the position it leads to. */
  ghost function ChildValue(pos: Position, m: Move, d: nat): int
    requires Playable(pos) && Legal(pos, m)
    decreases d, 1
  {
    PlayableMade(pos, m);
    -Value(Made(pos, m), d)
  }

  /** The best score among the legal moves ms. */
  ghost function Best(pos: Position, ms: seq<Move>, d: nat): int
    requires Playable(pos) && ms != [] && AllLegal(pos, ms)
    decreases d, |ms| + 1
  {
    var m := ms[|ms| - 1];
    assert m in ms;
    if |ms| == 1 then ChildValue(pos, m, d)
    else
      assert AllLegal(pos, ms[..|ms| - 1]) by {
        forall x | x in ms[..|ms| - 1] ensures Legal(pos, x) {
          InLast(ms, x);
        }
      }
      Max(Best(pos, ms[..|ms| - 1], d), ChildValue(pos, m, d))
  }

  /** `Best` is the maximum: no move scores more, and some move scores exactly that. */
  lemma {:induction false} BestIsMax(pos: Position, ms: seq<Move>, d: nat)
    requires Playable(pos) && ms != [] && AllLegal(pos, ms)
    ensures forall m :: m in ms ==> ChildValue(pos, m, d) <= Best(pos, ms, d)
    ensures exists m :: m in ms && ChildValue(pos, m, d) == Best(pos, ms, d)
  {
    hide Legal, Value, Made;
    var last := ms[|ms| - 1];
    assert last in ms;
    if |ms| > 1 {
      var pre := ms[..|ms| - 1];
      assert AllLegal(pos, pre) by {
        forall x | x in pre ensures Legal(pos, x) {
          InLast(ms, x);
        }
      }
      BestIsMax(pos, pre, d);
      forall m | m in ms ensures ChildValue(pos, m, d) <= Best(pos, ms, d) {
        InLast(ms, m);
      }
      var w :| w in pre && ChildValue(pos, w, d) == Best(pos, pre, d);
      InLast(ms, w);
    } else {
      forall m | m in ms ensures ChildValue(pos, m, d) <= Best(pos, ms, d) {
        assert m == last;
      }
    }
  }

  /** The score of a legal move is minus the value of the playable position it leads to. */
  lemma ChildValueMade(pos: Position, m: Move, d: nat)
    requires Playable(pos) && Legal(pos, m)
    ensures Playable(Made(pos, m)) && ChildValue(pos, m, d) == -Value(Made(pos, m), d)
  {
    PlayableMade(pos, m);
  }

  /** Appending a legal move to a list of legal moves. */
  lemma BestNext(pos: Position, ms: seq<Move>, m: Move, d: nat)
    requires Playable(pos) && AllLegal(pos, ms) && Legal(pos, m)
    ensures AllLegal(pos, ms + [m])
    ensures Best(pos, ms + [m], d) == if ms == [] then ChildValue(pos, m, d) else Max(Best(pos, ms, d), ChildValue(pos, m, d))
  {
    hide Legal, Value, Made;
    forall x | x in ms + [m] ensures Legal(pos, x) {
      InConcat(ms, [m], x);
    }
    assert (ms + [m])[..|ms + [m]| - 1] == ms;
  }

  /** Looking at more moves never lowers the best score. */
  lemma {:induction false} BestGrows(pos: Position, a: seq<Move>, b: seq<Move>, d: nat)
    requires Playable(pos) && a != [] && AllLegal(pos, a + b)
    ensures AllLegal(pos, a) && Best(pos, a, d) <= Best(pos, a + b, d)
  {
    hide Legal, Value, Made;
    assert AllLegal(pos, a) by {
      forall x | x in a ensures Legal(pos, x) {
        InConcat(a, b, x);
      }
    }
    if b != [] {
      var pre := b[..|b| - 1];
      assert (a + b)[..|a + b| - 1] == a + pre;
      assert AllLegal(pos, a + pre) by {
        forall x | x in a + pre ensures Legal(pos, x) {
          InLast(a + b, x);
        }
      }
      BestGrows(pos, a, pre, d);
    } else {
      assert a + b == a;
    }
  }

  /** The three cases of `Value`. */
  lemma ValueCases(pos: Position, depth: nat)
    requires Playable(pos)
    ensures LegalList(pos) == [] ==> Value(pos, depth) == if IsCheck(pos) then -EvalInf else 0
    ensures LegalList(pos) != [] && depth == 0 ==> Value(pos, depth) == Eval(pos) * EvalMult(pos.toMove)
    ensures LegalList(pos) != [] && depth > 0 ==>
      AllLegal(pos, LegalList(pos)) && Value(pos, depth) == Best(pos, LegalList(pos), depth - 1)
  {
    LegalFilterAllLegal(pos, PseudoLegalList(pos));
  }

  /** The best of the legal moves among the first k of ms is at most the best of all of them. */
  lemma SeenBelowAll(pos: Position, ms: seq<Move>, k: nat, d: nat)
    requires Playable(pos) && k <= |ms| && LegalFilter(pos, ms[..k]) != []
    ensures AllLegal(pos, LegalFilter(pos, ms[..k])) && AllLegal(pos, LegalFilter(pos, ms)) && LegalFilter(pos, ms) != []
    ensures Best(pos, LegalFilter(pos, ms[..k]), d) <= Best(pos, LegalFilter(pos, ms), d)
  {
    hide Legal, Value, Made, ChildValue, Best;
    LegalFilterConcat(pos, ms[..k], ms[k..]);
    assert ms[..k] + ms[k..] == ms;
    LegalFilterAllLegal(pos, ms);
    BestGrows(pos, LegalFilter(pos, ms[..k]), LegalFilter(pos, ms[k..]), d);
  }

  // ---------------------------------------------------------------- window arithmetic

  /**
   * One child searched: the window [lo, hi] holds the running best a, the
   * move's score, searched with the window [a, hi], agrees inside that
   * window with its true score c. Taking the better of a and the score keeps
   * a in agreement with the best of the moves seen so far, inside [lo, hi].
   */
  lemma WindowStep(lo: int, hi: int, a: int, w: int, first: bool, score: int, c: int)
    requires lo <= a
    requires first ==> a == lo
    requires !first && lo <= hi ==> Clamp(lo, hi, a) == Clamp(lo, hi, Max(lo, w))
    requires a <= hi ==> Clamp(a, hi, score) == Clamp(a, hi, c)
    ensures lo <= hi ==> Clamp(lo, hi, Max(a, score)) == Clamp(lo, hi, Max(lo, if first then c else Max(w, c)))
  {
  }

  /** Stopping once the running best passes the top of the window loses nothing inside the window. */
  lemma WindowCutoff(lo: int, hi: int, a: int, w: int, v: int)
    requires lo <= hi < a && w <= v
    requires Clamp(lo, hi, a) == Clamp(lo, hi, Max(lo, w))
    ensures Clamp(lo, hi, a) == Clamp(lo, hi, v)
  {
  }

  /**
   * One legal move searched by `negamax`: the running best a, which agreed
   * with the best of the legal moves before position j of ms, becomes
   * Max(a, score) and agrees with the best of those up to and including j.
   */
  lemma SearchStep(pos: Position, ms: seq<Move>, j: nat, d: nat, lo: int, hi: int, a: int, score: int)
    requires Playable(pos) && j < |ms| && Legal(pos, ms[j])
    requires AllLegal(pos, LegalFilter(pos, ms[..j])) && lo <= a
    requires LegalFilter(pos, ms[..j]) == [] ==> a == lo
    requires LegalFilter(pos, ms[..j]) != [] && lo <= hi ==>
      Clamp(lo, hi, a) == Clamp(lo, hi, Max(lo, Best(pos, LegalFilter(pos, ms[..j]), d)))
    requires a <= hi ==> Clamp(a, hi, score) == Clamp(a, hi, ChildValue(pos, ms[j], d))
    ensures AllLegal(pos, LegalFilter(pos, ms[..j + 1])) && LegalFilter(pos, ms[..j + 1]) != []
    ensures lo <= hi ==> Clamp(lo, hi, Max(a, score)) == Clamp(lo, hi, Max(lo, Best(pos, LegalFilter(pos, ms[..j + 1]), d)))
  {
    hide *;
    var seen := LegalFilter(pos, ms[..j]);
    LegalFilterNext(pos, ms, j);
    BestNext(pos, seen, ms[j], d);
    WindowStep(lo, hi, a, if seen == [] then 0 else Best(pos, seen, d), seen == [], score, ChildValue(pos, ms[j], d));
  }

  // ---------------------------------------------------------------- negamax

  /**
   * `negamax`. The `search` parameter through which the source recurses is
   * always `negamax` itself, so the recursion is direct here. The depth must
   * not be negative: the source only stops at depth 0. The two loops of the
   * source are the methods `FirstLegal` and `SearchMoves`.
   */
  method Negamax(pos: Position, alpha: int, beta: int, depth: int, allowCutoff: bool) returns (bestScore: int, bestMove: Move)
    requires Playable(pos) && depth >= 0
    ensures LegalList(pos) == [] ==> bestMove == NullMove && bestScore == if IsCheck(pos) then -EvalInf else 0
    ensures LegalList(pos) != [] && depth == 0 ==> bestMove == NullMove && bestScore == Eval(pos) * EvalMult(pos.toMove)
    ensures LegalList(pos) != [] && depth > 0 ==> bestMove in LegalList(pos) && bestScore >= alpha
    ensures alpha <= beta ==> Clamp(alpha, beta, bestScore) == Clamp(alpha, beta, Value(pos, depth))
    decreases depth, 2
  {
    hide *;
    ValueCases(pos, depth);
    PlayableFacts(pos);
    bestScore, bestMove := 0, NullMove;
    var terminal := IsTerminal(pos);
    if terminal {
      // checkmate or stalemate
      if IsCheck(pos) {
        bestScore := -EvalInf;
      }
      return;
    }
    if depth == 0 {
      bestScore := Eval(pos) * EvalMult(pos.toMove);
      return;
    }

    var moves := PseudoLegalMoves(pos);
    PseudoLegalAllDefined(pos);
    LegalFilterBase(pos, moves);
    bestScore := alpha;
    // the first legal move becomes the move to return, and the search starts from it
    var start;
    start, bestMove := FirstLegal(pos, moves);
    LegalListFilter(pos, bestMove);
    LegalFilterDrop(pos, moves, start);
    AllDefinedDrop(moves, start);
    moves := moves[start..];
    bestScore, bestMove := SearchMoves(pos, moves, alpha, beta, depth, allowCutoff, bestMove);
    LegalListFilter(pos, bestMove);
  }

  /**
   * The first loop of `negamax`: the index of the first legal move of moves
   * and that move, or 0 and the zero move when none is legal.
   */
  method FirstLegal(pos: Position, moves: seq<Move>) returns (start: nat, first: Move)
    requires Playable(pos) && AllDefined(moves)
    ensures start <= |moves| && LegalFilter(pos, moves[..start]) == []
    ensures LegalFilter(pos, moves) != [] ==> start < |moves| && first == moves[start] && first in moves && Legal(pos, first)
    ensures LegalFilter(pos, moves) == [] ==> start == 0 && first == NullMove
  {
    hide Legal, Made, IsLegal, LegalList, PseudoLegalList, MoveDefined;
    start, first := 0, NullMove;
    LegalFilterBase(pos, moves);
    for i := 0 to |moves|
      invariant LegalFilter(pos, moves[..i]) == []
    {
      var ok := IsLegalMove(pos, moves[i]);
      if ok {
        first := moves[i];
        start := i;
        LegalFilterIff(pos, moves, first);
        return;
      }
      LegalFilterNext(pos, moves, i);
    }
    assert moves[..|moves|] == moves;
  }

  /**
   * The main loop of `negamax` over the pseudo-legal moves from the first
   * legal one: each legal move is searched with the window (-beta, -alpha)
   * one ply shallower and its score negated, the best score and move are
   * kept, alpha is raised, and with `allowCutoff` the loop stops once alpha
   * exceeds beta.
   */
  method SearchMoves(pos: Position, moves: seq<Move>, alpha: int, beta: int, depth: int, allowCutoff: bool, first: Move)
    returns (bestScore: int, bestMove: Move)
    requires Playable(pos) && depth > 0 && AllDefined(moves)
    requires first in moves && Legal(pos, first)
    ensures LegalFilter(pos, moves) != [] && AllLegal(pos, LegalFilter(pos, moves))
    ensures bestMove in moves && Legal(pos, bestMove) && bestScore >= alpha
    ensures alpha <= beta ==> Clamp(alpha, beta, bestScore) == Clamp(alpha, beta, Best(pos, LegalFilter(pos, moves), depth - 1))
    decreases depth, 1
  {
    hide *;
    LegalFilterIff(pos, moves, first);
    LegalFilterAllLegal(pos, moves);
    LegalFilterBase(pos, moves);
    PlayableFacts(pos);
    bestScore, bestMove := alpha, first;
    var a := alpha;
    for j := 0 to |moves|
      invariant bestScore == a && alpha <= a && bestMove in moves && Legal(pos, bestMove)
      invariant AllLegal(pos, LegalFilter(pos, moves[..j]))
      invariant LegalFilter(pos, moves[..j]) == [] ==> a == alpha
      invariant LegalFilter(pos, moves[..j]) != [] && alpha <= beta ==>
        Clamp(alpha, beta, a) == Clamp(alpha, beta, Max(alpha, Best(pos, LegalFilter(pos, moves[..j]), depth - 1)))
    {
      var m := moves[j];
      MakeDefinedAt(pos, moves, j);
      var legal, score := TryMove(pos, m, beta, a, depth, allowCutoff);
      if !legal {
        LegalFilterNext(pos, moves, j);
        assert LegalFilter(pos, moves[..j + 1]) == LegalFilter(pos, moves[..j]);
        continue;
      }
      SearchStep(pos, moves, j, depth - 1, alpha, beta, a, score);
      ghost var next := Max(a, score);

      if score > bestScore {
        bestScore, bestMove := score, m;
      }
      if score > a {
        a := score;
      }
      assert a == next;
      if a > beta && allowCutoff {
        SeenBelowAll(pos, moves, j + 1, depth - 1);
        if alpha <= beta {
          WindowCutoff(alpha, beta, a, Best(pos, LegalFilter(pos, moves[..j + 1]), depth - 1),
            Best(pos, LegalFilter(pos, moves), depth - 1));
        }
        return;
      }
    }
    assert moves[..|moves|] == moves;
  }

  /**
   * The first half of the body of the main loop of `negamax`: make the move,
   * skip it when `IsLegal` rejects the result, and otherwise search the
   * result with the window (-beta, -alpha) one ply shallower and negate the
   * score. Inside the window [alpha, beta] that score agrees with the move's
   * true score.
   */
  method TryMove(pos: Position, m: Move, beta: int, alpha: int, depth: int, allowCutoff: bool) returns (legal: bool, score: int)
    requires Playable(pos) && MakeDefined(pos, m) && MoveDefined(m) && depth > 0
    ensures legal == Legal(pos, m)
    ensures legal && alpha <= beta ==> Clamp(alpha, beta, score) == Clamp(alpha, beta, ChildValue(pos, m, depth - 1))
    decreases depth, 0
  {
    hide *;
    score := 0;
    LegalMade(pos, m);
    var newpos := Make(pos, m);
    legal := IsLegal(newpos);
    if !legal {
      return;
    }
    ChildValueMade(pos, m, depth - 1);
    var reply;
    score, reply := Negamax(newpos, -beta, -alpha, depth - 1, allowCutoff);
    score := -score;
  }

  /** `SearchPosition`: negamax over the widest window, with cutoffs. */
  method SearchPosition(pos: Position, depth: int) returns (score: int, move: Move)
    requires Playable(pos) && depth >= 0
    ensures Clamp(-EvalInf, EvalInf, score) == Clamp(-EvalInf, EvalInf, Value(pos, depth))
    ensures -EvalInf < Value(pos, depth) < EvalInf ==> score == Value(pos, depth)
    ensures LegalList(pos) != [] && depth > 0 ==> move in LegalList(pos) && score >= -EvalInf
  {
    score, move := Negamax(pos, -EvalInf, EvalInf, depth, true);
  }
}

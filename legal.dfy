/**
 * Legality: `IsCheck`, `IsLegal` and `IsTerminal` of search.go, and
 * `LegalMoves` and `hasLegalMove` of move.go. A pseudo-legal move is legal
 * when, after `Make`, the king of the side that moved is not attacked.
 */
module Legality {
  import opened Bits
  import opened Chess
  import opened Attacks
  import opened Moves
  import opened MoveGen
  import opened PawnGen
  import opened Castling
  import opened Generate

  /** `IsCheck`: the opponent attacks the king of the side to move. */
  function IsCheck(pos: Position): bool
    requires pos.King(pos.toMove) < 64
  {
    IsAttacked(pos, pos.King(pos.toMove), pos.Opp())
  }

  /** `IsLegal`: the side to move does not attack the king of the side that has just moved. */
  function IsLegal(pos: Position): bool
    requires pos.King(pos.Opp()) < 64
  {
    !IsAttacked(pos, pos.King(pos.Opp()), pos.toMove)
  }

  /** In check exactly when some piece of the opponent attacks the mover's king along its own moves. */
  lemma IsCheckIff(pos: Position)
    requires pos.King(pos.toMove) < 64
    ensures IsCheck(pos) <==> AttackedBy(pos, pos.King(pos.toMove), pos.Opp())
  {
    IsAttackedIff(pos, pos.King(pos.toMove), pos.Opp());
  }

  /** Legal exactly when no piece of the side to move attacks the other king along its own moves. */
  lemma IsLegalIff(pos: Position)
    requires pos.King(pos.Opp()) < 64
    ensures IsLegal(pos) <==> !AttackedBy(pos, pos.King(pos.Opp()), pos.toMove)
  {
    IsAttackedIff(pos, pos.King(pos.Opp()), pos.toMove);
  }

  /**
   * `Make` keeps a position playable: the kings stay on the board, and a
   * king move gives up both of the mover's rights.
   */
  lemma PlayableMade(pos: Position, m: Move)
    requires Playable(pos) && MoveDefined(m)
    ensures Playable(Made(pos, m))
  {
    var r := Made(pos, m);
    MadeRights(pos, m);
    forall c: Color, side: Side | r.Castle(c, side)
      ensures r.King(c) == KingHome(c)
    {
      assert !LosesRight(pos, m, c, side);
    }
  }

  /**
   * m is legal in pos: `Make` can apply it and `IsLegal` holds of the result,
   * whose king of the side that moved stands on the board (as `PlayableMade`
   * shows it always does).
   */
  predicate Legal(pos: Position, m: Move)
    requires Consistent(pos)
  {
    MoveDefined(m) && var r := Made(pos, m); r.King(r.Opp()) < 64 && IsLegal(r)
  }

  /** The move is legal exactly when `IsLegal` accepts the position `Make` produces, which is playable. */
  lemma LegalMade(pos: Position, m: Move)
    requires Playable(pos) && MoveDefined(m)
    ensures Playable(Made(pos, m)) && Made(pos, m).King(Made(pos, m).Opp()) < 64
    ensures Legal(pos, m) <==> IsLegal(Made(pos, m))
  {
    PlayableMade(pos, m);
  }

  /** A legal move is one `Make` can apply. */
  lemma LegalDefined(pos: Position, m: Move)
    requires Playable(pos) && Legal(pos, m)
    ensures MakeDefined(pos, m)
  {
  }

  /** The moves of ms that are legal in pos, in the order of ms. */
  function LegalFilter(pos: Position, ms: seq<Move>): (r: seq<Move>)
    requires Playable(pos)
  {
    if ms == [] then []
    else LegalFilter(pos, ms[..|ms| - 1]) + if Legal(pos, ms[|ms| - 1]) then [ms[|ms| - 1]] else []
  }

  /** What `LegalMoves(pos)` returns: the pseudo-legal moves, in their order, that leave the mover's king safe. */
  function LegalList(pos: Position): seq<Move>
    requires Playable(pos)
  {
    LegalFilter(pos, PseudoLegalList(pos))
  }

  /** The filter keeps exactly the legal moves of ms. */
  lemma {:induction false} LegalFilterIff(pos: Position, ms: seq<Move>, m: Move)
    requires Playable(pos)
    ensures m in LegalFilter(pos, ms) <==> m in ms && Legal(pos, m)
  {
    hide Legal;
    if ms != [] {
      var pre, x := ms[..|ms| - 1], ms[|ms| - 1];
      LegalFilterIff(pos, pre, m);
      InLast(ms, m);
    }
  }

  /** Every move of ms is legal in pos. */
  predicate AllLegal(pos: Position, ms: seq<Move>)
    requires Playable(pos)
  {
    forall m :: m in ms ==> Legal(pos, m)
  }

  /** The filter keeps only legal moves. */
  lemma LegalFilterAllLegal(pos: Position, ms: seq<Move>)
    requires Playable(pos)
    ensures AllLegal(pos, LegalFilter(pos, ms))
  {
    hide Legal;
    forall m | m in LegalFilter(pos, ms) ensures Legal(pos, m) {
      LegalFilterIff(pos, ms, m);
    }
  }

  /** Filtering one more move of ms appends it when it is legal. */
  lemma LegalFilterNext(pos: Position, ms: seq<Move>, j: nat)
    requires Playable(pos) && j < |ms|
    ensures LegalFilter(pos, ms[..j + 1]) == LegalFilter(pos, ms[..j]) + if Legal(pos, ms[j]) then [ms[j]] else []
  {
    hide Legal;
    assert ms[..j + 1][..j] == ms[..j];
  }

  /** The filter keeps the order: filtering a concatenation filters each part. */
  lemma {:induction false} LegalFilterConcat(pos: Position, a: seq<Move>, b: seq<Move>)
    requires Playable(pos)
    ensures LegalFilter(pos, a + b) == LegalFilter(pos, a) + LegalFilter(pos, b)
  {
    hide Legal;
    if b != [] {
      var pre := b[..|b| - 1];
      LegalFilterConcat(pos, a, pre);
      assert (a + b)[..|a + b| - 1] == a + pre;
      assert (a + b)[|a + b| - 1] == b[|b| - 1];
    } else {
      assert a + b == a;
    }
  }

  /** The filter of no moves is empty, and `LegalMoves(pos)` filters the pseudo-legal moves. */
  lemma LegalFilterBase(pos: Position, ms: seq<Move>)
    requires Playable(pos)
    ensures LegalFilter(pos, ms[..0]) == [] && AllLegal(pos, [])
    ensures LegalList(pos) == LegalFilter(pos, PseudoLegalList(pos))
  {
    assert ms[..0] == [];
  }

  /** Dropping a prefix that holds no legal move does not change the filter. */
  lemma LegalFilterDrop(pos: Position, ms: seq<Move>, k: nat)
    requires Playable(pos) && k <= |ms| && LegalFilter(pos, ms[..k]) == []
    ensures LegalFilter(pos, ms[k..]) == LegalFilter(pos, ms)
  {
    hide Legal;
    LegalFilterConcat(pos, ms[..k], ms[k..]);
    assert ms[..k] + ms[k..] == ms;
  }

  /** A legal move among the pseudo-legal ones is in `LegalMoves(pos)`. */
  lemma LegalListFilter(pos: Position, m: Move)
    requires Playable(pos)
    ensures m in LegalList(pos) <==> m in PseudoLegalList(pos) && Legal(pos, m)
  {
    hide Legal;
    LegalFilterIff(pos, PseudoLegalList(pos), m);
  }

  /** A move is in `LegalMoves(pos)` exactly when a generator makes it and it is legal. */
  lemma LegalListIff(pos: Position, m: Move)
    requires Playable(pos)
    ensures m in LegalList(pos) <==> m in Generated(pos) && Legal(pos, m)
  {
    hide Legal;
    LegalFilterIff(pos, PseudoLegalList(pos), m);
    PseudoLegalOrder(pos);
  }

  /** `LegalMoves`: the pseudo-legal moves whose result `IsLegal` accepts, in order. */
  method LegalMoves(pos: Position) returns (legal: seq<Move>)
    requires Playable(pos)
    ensures legal == LegalList(pos)
  {
    hide Legal, Made, IsLegal, Generated, PseudoLegalList, PawnMoveList, PieceMoveList, KingMoveList;
    var pl := PseudoLegalMoves(pos);
    GeneratedDefined(pos);
    legal := [];
    for i := 0 to |pl|
      invariant legal == LegalFilter(pos, pl[..i])
    {
      var m := pl[i];
      assert pl[..i + 1][..i] == pl[..i];
      var ok := IsLegalMove(pos, m);
      if !ok {
        continue;
      }
      legal := legal + [m];
    }
    assert pl[..|pl|] == pl;
  }

  /** Whether one of ms is legal in pos. */
  predicate SomeLegal(pos: Position, ms: seq<Move>)
    requires Playable(pos)
  {
    exists m :: m in ms && Legal(pos, m)
  }

  /** `LegalMoves(pos)` is non-empty exactly when some generated move is legal. */
  lemma LegalListNonEmpty(pos: Position)
    requires Playable(pos)
    ensures LegalList(pos) != [] <==> SomeLegal(pos, Generated(pos))
  {
    hide Legal;
    if LegalList(pos) != [] {
      LegalListIff(pos, LegalList(pos)[0]);
    }
    if SomeLegal(pos, Generated(pos)) {
      var m :| m in Generated(pos) && Legal(pos, m);
      LegalListIff(pos, m);
    }
  }

  /** The inner loop of `hasLegalMove` and of `IsTerminal`: whether some move of ms is legal, stopping at the first. */
  method AnyLegal(pos: Position, ms: seq<Move>) returns (found: bool)
    requires Playable(pos) && AllDefined(ms)
    ensures found == SomeLegal(pos, ms)
  {
    hide Legal;
    for j := 0 to |ms|
      invariant forall k :: 0 <= k < j ==> !Legal(pos, ms[k])
    {
      var ok := IsLegalMove(pos, ms[j]);
      if ok {
        return true;
      }
    }
    found := false;
  }

  /** `IsLegal(Make(pos, m))`, the test every loop over the moves makes. */
  method IsLegalMove(pos: Position, m: Move) returns (ok: bool)
    requires Playable(pos) && MoveDefined(m)
    ensures ok == Legal(pos, m)
  {
    var next := Make(pos, m);
    PlayableMade(pos, m);
    ok := IsLegal(next);
  }

  /**
   * `hasLegalMove`: generate each kind of piece's moves, then look through
   * them list by list, returning as soon as one move is legal.
   */
  method HasLegalMove(pos: Position) returns (found: bool)
    requires Playable(pos)
    ensures found <==> LegalList(pos) != []
  {
    hide Legal, Made, IsLegal, PseudoLegalList, PawnMoveList, PieceMoveList, KingMoveList;
    var pawns := PawnMoves(pos);
    var knights := PieceMoves(pos, Knight);
    var bishops := PieceMoves(pos, Bishop);
    var rooks := PieceMoves(pos, Rook);
    var queens := PieceMoves(pos, Queen);
    var kings := KingMoves(pos);
    var lists := [pawns, knights, bishops, rooks, queens, kings];
    GeneratorsDefined(pos);
    assert NonPawn(Knight) && NonPawn(Bishop) && NonPawn(Rook) && NonPawn(Queen);
    LegalListNonEmpty(pos);
    for i := 0 to |lists|
      invariant forall k :: 0 <= k < i ==> !SomeLegal(pos, lists[k])
    {
      found := AnyLegal(pos, lists[i]);
      if found {
        assert lists[i] in lists;
        SomeLegalSix(pos, pawns, knights, bishops, rooks, queens, kings);
        return;
      }
    }
    assert !SomeLegal(pos, lists[0]) && !SomeLegal(pos, lists[1]) && !SomeLegal(pos, lists[2]);
    assert !SomeLegal(pos, lists[3]) && !SomeLegal(pos, lists[4]) && !SomeLegal(pos, lists[5]);
    SomeLegalSix(pos, pawns, knights, bishops, rooks, queens, kings);
    found := false;
  }

  /** A move of six lists laid end to end is legal exactly when one of the lists has a legal move. */
  lemma SomeLegalSix(pos: Position, p: seq<Move>, n: seq<Move>, b: seq<Move>, r: seq<Move>, q: seq<Move>, k: seq<Move>)
    requires Playable(pos)
    ensures SomeLegal(pos, p + n + b + r + q + k) <==>
      SomeLegal(pos, p) || SomeLegal(pos, n) || SomeLegal(pos, b) || SomeLegal(pos, r) || SomeLegal(pos, q) || SomeLegal(pos, k)
  {
    hide Legal;
    SomeLegalConcat(pos, p, n);
    SomeLegalConcat(pos, p + n, b);
    SomeLegalConcat(pos, p + n + b, r);
    SomeLegalConcat(pos, p + n + b + r, q);
    SomeLegalConcat(pos, p + n + b + r + q, k);
  }

  /** A concatenation has a legal move exactly when one of its parts has. */
  lemma SomeLegalConcat(pos: Position, a: seq<Move>, b: seq<Move>)
    requires Playable(pos)
    ensures SomeLegal(pos, a + b) <==> SomeLegal(pos, a) || SomeLegal(pos, b)
  {
    hide Legal;
    if SomeLegal(pos, a + b) {
      var m :| m in a + b && Legal(pos, m);
      InConcat(a, b, m);
    }
    if SomeLegal(pos, a) || SomeLegal(pos, b) {
      var m :| (m in a || m in b) && Legal(pos, m);
      InConcat(a, b, m);
    }
  }

  /**
   * `IsTerminal`: looks through the pseudo-legal moves and answers false at
   * the first legal one; a position without one is checkmate or stalemate.
   */
  method IsTerminal(pos: Position) returns (terminal: bool)
    requires Playable(pos)
    ensures terminal <==> LegalList(pos) == []
  {
    hide Legal;
    var moves := PseudoLegalMoves(pos);
    GeneratedDefined(pos);
    var found := AnyLegal(pos, moves);
    PseudoLegalOrder(pos);
    LegalListNonEmpty(pos);
    if found {
      var m :| m in moves && Legal(pos, m);
      assert m in Generated(pos);
    }
    terminal := !found;
  }
}

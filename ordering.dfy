/** Runs of a sequence: a bin laid out in a sequence from a start position. */
module Bins {
  /** s holds `bin` from position `start` on. */
  ghost predicate BinAt<T>(s: seq<T>, start: nat, bin: seq<T>)
  {
    start + |bin| <= |s| && s[start..start + |bin|] == bin
  }

  /** The k-th entry of a bin. */
  lemma BinEntry<T>(s: seq<T>, start: nat, bin: seq<T>, k: nat)
    requires BinAt(s, start, bin) && k < |bin|
    ensures start + k < |s| && s[start + k] == bin[k]
  {
    assert s[start..start + |bin|][k] == s[start + k];
  }

  /** Writing x just past the end of a bin extends the bin by x. */
  lemma BinGrow<T>(s: seq<T>, start: nat, bin: seq<T>, x: T)
    requires BinAt(s, start, bin) && start + |bin| < |s|
    ensures BinAt(s[start + |bin| := x], start, bin + [x])
  {
    var end := start + |bin|;
    var s' := s[end := x];
    assert s'[start..end] == s[start..end];
    assert s'[start..end + 1] == s'[start..end] + [x];
  }

  /** Writing x at a slot outside a bin leaves the bin as it was. */
  lemma BinKeep<T>(s: seq<T>, start: nat, bin: seq<T>, slot: nat, x: T)
    requires BinAt(s, start, bin) && slot < |s|
    requires slot < start || start + |bin| <= slot
    ensures BinAt(s[slot := x], start, bin)
  {
    var end := start + |bin|;
    assert s[slot := x][start..end] == s[start..end];
  }
}

/**
 * The counting sort at the end of `PseudoLegalMoves` (move.go): moves are
 * binned by type (winning captures, equal captures, losing captures,
 * non-captures), the bins' start offsets are summed, and each move is copied
 * to the next free slot of its bin, so the order within a bin is kept.
 */
module Ordering {
  import opened Bins
  import opened Chess
  import opened Moves

  const Winning: nat := 0
  const Equal: nat := 1
  const Losing: nat := 2
  const NonCapture: nat := 3

  /** The number of bins. */
  const Types: nat := 4

  /**
   * `moveType`: a non-capture; a capture of the same kind of piece or a bishop
   * for a knight or the other way round; a capture of a piece later in the
   * order None, Pawn, Knight, Bishop, Rook, Queen, King; any other capture.
   */
  function MoveType(m: Move): (t: nat)
    ensures t < Types
    ensures t == NonCapture <==> !m.IsCapture()
    ensures t == Winning ==> m.piece.Index() < m.capturePiece.Index()
  {
    if !m.IsCapture() then NonCapture
    else if m.piece == m.capturePiece || (m.piece == Bishop && m.capturePiece == Knight) ||
      (m.piece == Knight && m.capturePiece == Bishop) then Equal
    else if m.piece.Index() < m.capturePiece.Index() then Winning
    else Losing
  }

  /** The moves of ms of type t, in the order of ms. */
  function OfType(ms: seq<Move>, t: nat): (r: seq<Move>)
    ensures |r| <= |ms|
  {
    if ms == [] then []
    else OfType(ms[..|ms| - 1], t) + (if MoveType(ms[|ms| - 1]) == t then [ms[|ms| - 1]] else [])
  }

  /** Where bin t starts: the number of moves of the types before t. */
  function Start(ms: seq<Move>, t: nat): nat
    requires t <= Types
  {
    (if t > Winning then |OfType(ms, Winning)| else 0) +
    (if t > Equal then |OfType(ms, Equal)| else 0) +
    (if t > Losing then |OfType(ms, Losing)| else 0) +
    (if t > NonCapture then |OfType(ms, NonCapture)| else 0)
  }

  /** The order `PseudoLegalMoves` returns: the four bins one after the other. */
  function ByType(ms: seq<Move>): seq<Move>
  {
    OfType(ms, Winning) + OfType(ms, Equal) + OfType(ms, Losing) + OfType(ms, NonCapture)
  }

  /** Each further move of ms joins the end of its own bin and leaves the others as they were. */
  lemma OfTypeNext(ms: seq<Move>, i: nat, t: nat)
    requires i < |ms|
    ensures OfType(ms[..i + 1], t) == OfType(ms[..i], t) + (if MoveType(ms[i]) == t then [ms[i]] else [])
  {
    assert ms[..i + 1][..i] == ms[..i];
  }

  /** A prefix of ms has no more moves of type t than ms itself, and one fewer when the next move has type t. */
  lemma {:induction false} OfTypePrefix(ms: seq<Move>, i: nat, t: nat)
    requires i < |ms|
    ensures |OfType(ms[..i], t)| + (if MoveType(ms[i]) == t then 1 else 0) <= |OfType(ms, t)|
    decreases |ms| - i
  {
    OfTypeNext(ms, i, t);
    if i + 1 < |ms| {
      OfTypePrefix(ms, i + 1, t);
    } else {
      assert ms[..i + 1] == ms;
    }
  }

  /** The last move of ms joins the end of its own bin. */
  lemma OfTypeLast(ms: seq<Move>, t: nat)
    requires ms != []
    ensures |OfType(ms, t)| == |OfType(ms[..|ms| - 1], t)| + (if MoveType(ms[|ms| - 1]) == t then 1 else 0)
    ensures multiset(OfType(ms, t)) ==
      multiset(OfType(ms[..|ms| - 1], t)) + (if MoveType(ms[|ms| - 1]) == t then multiset{ms[|ms| - 1]} else multiset{})
  {
  }

  /** The four bins together hold as many moves as ms. */
  lemma {:induction false} BinsCover(ms: seq<Move>)
    ensures Start(ms, Types) == |ms|
  {
    if ms != [] {
      var pre := ms[..|ms| - 1];
      BinsCover(pre);
      OfTypeLast(ms, Winning);
      OfTypeLast(ms, Equal);
      OfTypeLast(ms, Losing);
      OfTypeLast(ms, NonCapture);
    }
  }

  /** Indexing four sequences laid end to end. */
  lemma At4<T>(w: seq<T>, e: seq<T>, l: seq<T>, n: seq<T>, p: nat)
    requires p < |w| + |e| + |l| + |n|
    ensures (w + e + l + n)[p] ==
      if p < |w| then w[p]
      else if p < |w| + |e| then e[p - |w|]
      else if p < |w| + |e| + |l| then l[p - |w| - |e|]
      else n[p - |w| - |e| - |l|]
  {
  }

  /** Position Start(t) + k of the sorted moves holds the k-th move of type t. */
  lemma ByTypeAt(ms: seq<Move>, t: nat, k: nat)
    requires t < Types && k < |OfType(ms, t)|
    ensures Start(ms, t) + k < |ByType(ms)|
    ensures ByType(ms)[Start(ms, t) + k] == OfType(ms, t)[k]
  {
    var w, e, l, n := OfType(ms, Winning), OfType(ms, Equal), OfType(ms, Losing), OfType(ms, NonCapture);
    assert ByType(ms) == w + e + l + n;
    var bin := if t == Winning then w else if t == Equal then e else if t == Losing then l else n;
    assert OfType(ms, t) == bin;
    var start := if t == Winning then 0 else if t == Equal then |w| else if t == Losing then |w| + |e| else |w| + |e| + |l|;
    assert Start(ms, t) == start;
    hide OfType, MoveType, ByType, Start;
    At4(w, e, l, n, start + k);
  }

  /** Every position of the sorted moves lies in exactly one bin. */
  lemma BinOf(ms: seq<Move>, p: nat) returns (t: nat, k: nat)
    requires p < |ms|
    ensures t < Types && k < |OfType(ms, t)| && p == Start(ms, t) + k
  {
    BinsCover(ms);
    if p < Start(ms, 1) {
      t, k := 0, p;
    } else if p < Start(ms, 2) {
      t, k := 1, p - Start(ms, 1);
    } else if p < Start(ms, 3) {
      t, k := 2, p - Start(ms, 2);
    } else {
      t, k := 3, p - Start(ms, 3);
    }
  }

  /** The bins are laid out in order: a bin ends no later than any later bin starts. */
  lemma StartMonotone(ms: seq<Move>, t: nat, u: nat)
    requires t < u <= Types
    ensures Start(ms, t) + |OfType(ms, t)| <= Start(ms, u)
  {
  }

  /** The first i moves sit in their bins of s: the k-th move of type t among them at Start(t) + k. */
  ghost predicate Filled(s: seq<Move>, moves: seq<Move>, i: nat)
    requires i <= |moves|
  {
    forall t :: 0 <= t < Types ==> BinAt(s, Start(moves, t), OfType(moves[..i], t))
  }

  /** `index[t]` is the next free slot of bin t once the first i moves are placed. */
  ghost predicate NextFree(index: seq<nat>, moves: seq<Move>, i: nat)
    requires i <= |moves|
  {
    |index| == Types && forall t :: 0 <= t < Types ==> index[t] == Start(moves, t) + |OfType(moves[..i], t)|
  }

  /**
   * The counting sort of `PseudoLegalMoves`: count each bin in `bins`, sum the
   * counts of the earlier bins into `index`, then place each move at its bin's
   * `index` and advance it.
   */
  method SortByType(moves: seq<Move>) returns (sorted: seq<Move>)
    ensures sorted == ByType(moves)
  {
    var bins := CountBins(moves);
    var index := Offsets(moves, bins);
    var out := new Move[|moves|](_ => Move(0, 0, None, None, false, None));
    FilledEmpty(out[..], moves);
    for i := 0 to |moves|
      modifies out, index
      invariant NextFree(index[..], moves, i)
      invariant Filled(out[..], moves, i)
    {
      Place(moves, i, out, index);
    }
    sorted := out[..];
    FilledSorted(sorted, moves);
  }

  /** Before any move is placed, every bin is empty and starts inside s. */
  lemma FilledEmpty(s: seq<Move>, moves: seq<Move>)
    requires |s| == |moves|
    ensures Filled(s, moves, 0)
  {
    BinsCover(moves);
    forall t | 0 <= t < Types ensures BinAt(s, Start(moves, t), OfType(moves[..0], t)) {
      StartMonotone(moves, t, Types);
      assert OfType(moves[..0], t) == [];
    }
  }

  /** Once every move is placed, the slots hold the sorted moves. */
  lemma FilledSorted(s: seq<Move>, moves: seq<Move>)
    requires |s| == |moves| && Filled(s, moves, |moves|)
    ensures s == ByType(moves)
  {
    BinsCover(moves);
    assert moves[..|moves|] == moves;
    forall p | 0 <= p < |moves|
      ensures s[p] == ByType(moves)[p]
    {
      var t, k := BinOf(moves, p);
      ByTypeAt(moves, t, k);
      assert BinAt(s, Start(moves, t), OfType(moves[..|moves|], t));
      BinEntry(s, Start(moves, t), OfType(moves, t), k);
    }
  }

  /** The first loop of the sort: `bins[t]` counts the moves of type t. */
  method CountBins(moves: seq<Move>) returns (bins: array<nat>)
    ensures fresh(bins) && bins.Length == Types
    ensures forall t :: 0 <= t < Types ==> bins[t] == |OfType(moves, t)|
  {
    bins := new nat[Types](_ => 0);
    for i := 0 to |moves|
      modifies bins
      invariant forall t :: 0 <= t < Types ==> bins[t] == |OfType(moves[..i], t)|
    {
      forall t | 0 <= t < Types
        ensures OfType(moves[..i + 1], t) == OfType(moves[..i], t) + (if MoveType(moves[i]) == t then [moves[i]] else [])
      {
        OfTypeNext(moves, i, t);
      }
      var mt := MoveType(moves[i]);
      bins[mt] := bins[mt] + 1;
    }
    assert moves[..|moves|] == moves;
  }

  /** The second loop of the sort: `index[t]` sums the counts of the bins before t. */
  method Offsets(moves: seq<Move>, bins: array<nat>) returns (index: array<nat>)
    requires bins.Length == Types
    requires forall t :: 0 <= t < Types ==> bins[t] == |OfType(moves, t)|
    ensures fresh(index) && NextFree(index[..], moves, 0)
  {
    index := new nat[Types](_ => 0);
    for i := 0 to Types
      modifies index
      invariant forall t :: 0 <= t < i ==> index[t] == Start(moves, t)
      invariant forall t :: i <= t < Types ==> index[t] == 0
    {
      for j := 0 to i
        modifies index
        invariant index[i] == Start(moves, j)
        invariant forall t :: 0 <= t < i ==> index[t] == Start(moves, t)
        invariant forall t :: i < t < Types ==> index[t] == 0
      {
        index[i] := index[i] + bins[j];
      }
    }
  }

  /** One step of the placing loop: the move goes to the next free slot of its bin. */
  method Place(moves: seq<Move>, i: nat, out: array<Move>, index: array<nat>)
    requires i < |moves| && out.Length == |moves|
    requires NextFree(index[..], moves, i) && Filled(out[..], moves, i)
    modifies out, index
    ensures NextFree(index[..], moves, i + 1) && Filled(out[..], moves, i + 1)
  {
    var mt := MoveType(moves[i]);
    var slot := index[mt];
    PlaceStep(out[..], index[..], moves, i);
    ghost var before := out[..];
    out[slot] := moves[i];
    assert out[..] == before[slot := moves[i]];
    index[mt] := slot + 1;
  }

  /** Writing move i at the next free slot of its bin and advancing that slot keeps both invariants. */
  lemma PlaceStep(s: seq<Move>, index: seq<nat>, moves: seq<Move>, i: nat)
    requires i < |moves| && |s| == |moves|
    requires NextFree(index, moves, i) && Filled(s, moves, i)
    ensures index[MoveType(moves[i])] < |s|
    ensures NextFree(index[MoveType(moves[i]) := index[MoveType(moves[i])] + 1], moves, i + 1)
    ensures Filled(s[index[MoveType(moves[i])] := moves[i]], moves, i + 1)
  {
    var mt := MoveType(moves[i]);
    BinsCover(moves);
    OfTypePrefix(moves, i, mt);
    StartMonotone(moves, mt, Types);
    forall t | 0 <= t < Types
      ensures OfType(moves[..i + 1], t) == OfType(moves[..i], t) + (if mt == t then [moves[i]] else [])
      ensures BinAt(s[index[mt] := moves[i]], Start(moves, t), OfType(moves[..i + 1], t))
    {
      PlaceBin(s, index, moves, i, t);
    }
  }

  /** Bin t after move i is placed: extended by it when it has type t, untouched otherwise. */
  lemma PlaceBin(s: seq<Move>, index: seq<nat>, moves: seq<Move>, i: nat, t: nat)
    requires i < |moves| && |s| == |moves| && t < Types
    requires NextFree(index, moves, i) && Filled(s, moves, i)
    ensures index[MoveType(moves[i])] < |s|
    ensures OfType(moves[..i + 1], t) == OfType(moves[..i], t) + (if MoveType(moves[i]) == t then [moves[i]] else [])
    ensures BinAt(s[index[MoveType(moves[i])] := moves[i]], Start(moves, t), OfType(moves[..i + 1], t))
  {
    var mt := MoveType(moves[i]);
    var slot := index[mt];
    var start, bin, x := Start(moves, t), OfType(moves[..i], t), moves[i];
    BinsCover(moves);
    OfTypePrefix(moves, i, mt);
    StartMonotone(moves, mt, Types);
    OfTypeNext(moves, i, t);
    OfTypePrefix(moves, i, t);
    assert BinAt(s, start, bin);
    if t == mt {
      assert slot == start + |bin| < |s|;
      assert OfType(moves[..i + 1], t) == bin + [x];
      hide *;
      BinGrow(s, start, bin, x);
    } else {
      if t < mt {
        StartMonotone(moves, t, mt);
        assert start + |bin| <= slot;
      } else {
        StartMonotone(moves, mt, t);
        assert slot < start;
      }
      assert slot < |s|;
      assert OfType(moves[..i + 1], t) == bin;
      hide *;
      BinKeep(s, start, bin, slot, x);
    }
  }

  // ---------------------------------------------------------------- what the order promises

  /** The moves of type t in a concatenation are those of each part, in order. */
  lemma {:induction false} OfTypeConcat(a: seq<Move>, b: seq<Move>, t: nat)
    ensures OfType(a + b, t) == OfType(a, t) + OfType(b, t)
  {
    if b != [] {
      var pre := b[..|b| - 1];
      OfTypeConcat(a, pre, t);
      assert (a + b)[..|a + b| - 1] == a + pre;
      assert (a + b)[|a + b| - 1] == b[|b| - 1];
    } else {
      assert a + b == a;
    }
  }

  /** Taking the moves of type t from a bin gives the bin itself when it is bin t and nothing otherwise. */
  lemma {:induction false} OfTypeOfType(ms: seq<Move>, u: nat, t: nat)
    ensures OfType(OfType(ms, u), t) == if u == t then OfType(ms, t) else []
  {
    if ms != [] {
      var pre := ms[..|ms| - 1];
      OfTypeOfType(pre, u, t);
      var tail := if MoveType(ms[|ms| - 1]) == u then [ms[|ms| - 1]] else [];
      OfTypeConcat(OfType(pre, u), tail, t);
      assert OfType(tail, t) == (if u == t then tail else []) by {
        if tail != [] {
          assert tail[..0] == [];
        }
      }
    }
  }

  /** Stability: within each type the sorted moves keep the order they were generated in. */
  lemma ByTypeStable(ms: seq<Move>, t: nat)
    requires t < Types
    ensures OfType(ByType(ms), t) == OfType(ms, t)
  {
    var w, e, l, n := OfType(ms, Winning), OfType(ms, Equal), OfType(ms, Losing), OfType(ms, NonCapture);
    assert ByType(ms) == w + e + l + n;
    hide OfType, MoveType, ByType;
    var a, b, c, d := OfType(w, t), OfType(e, t), OfType(l, t), OfType(n, t);
    assert OfType(ByType(ms), t) == a + b + c + d by {
      OfTypeConcat(w + e + l, n, t);
      OfTypeConcat(w + e, l, t);
      OfTypeConcat(w, e, t);
    }
    assert a == (if t == Winning then OfType(ms, t) else []) by { OfTypeOfType(ms, Winning, t); }
    assert b == (if t == Equal then OfType(ms, t) else []) by { OfTypeOfType(ms, Equal, t); }
    assert c == (if t == Losing then OfType(ms, t) else []) by { OfTypeOfType(ms, Losing, t); }
    assert d == (if t == NonCapture then OfType(ms, t) else []) by { OfTypeOfType(ms, NonCapture, t); }
    OneOfFour(a, b, c, d, OfType(ms, t), t);
  }

  /** Four sequences of which the t-th is x and the others are empty, laid end to end, are x. */
  lemma OneOfFour<T>(a: seq<T>, b: seq<T>, c: seq<T>, d: seq<T>, x: seq<T>, t: nat)
    requires t < Types
    requires a == (if t == Winning then x else []) && b == (if t == Equal then x else [])
    requires c == (if t == Losing then x else []) && d == (if t == NonCapture then x else [])
    ensures a + b + c + d == x
  {
  }

  /** Every move of bin t has type t. */
  lemma {:induction false} OfTypeHasType(ms: seq<Move>, t: nat, k: nat)
    requires k < |OfType(ms, t)|
    ensures MoveType(OfType(ms, t)[k]) == t
  {
    var pre := ms[..|ms| - 1];
    if k < |OfType(pre, t)| {
      OfTypeHasType(pre, t, k);
    }
  }

  /** Ordering: the sorted moves never put a move before one of a lower type. */
  lemma ByTypeOrdered(ms: seq<Move>, i: nat, j: nat)
    requires i < j < |ByType(ms)|
    ensures MoveType(ByType(ms)[i]) <= MoveType(ByType(ms)[j])
  {
    BinsCover(ms);
    var ti, ki := BinOf(ms, i);
    var tj, kj := BinOf(ms, j);
    ByTypeAt(ms, ti, ki);
    ByTypeAt(ms, tj, kj);
    OfTypeHasType(ms, ti, ki);
    OfTypeHasType(ms, tj, kj);
    if tj < ti {
      StartMonotone(ms, tj, ti);
    }
  }

  /** The four bins together hold exactly the moves of ms. */
  lemma {:induction false} BinsMultiset(ms: seq<Move>)
    ensures multiset(OfType(ms, Winning)) + multiset(OfType(ms, Equal)) +
      multiset(OfType(ms, Losing)) + multiset(OfType(ms, NonCapture)) == multiset(ms)
  {
    if ms != [] {
      var pre, x := ms[..|ms| - 1], ms[|ms| - 1];
      BinsMultiset(pre);
      assert ms == pre + [x];
      var t := MoveType(x);
      BinBag(ms, Winning);
      BinBag(ms, Equal);
      BinBag(ms, Losing);
      BinBag(ms, NonCapture);
      SumBags(multiset(OfType(pre, Winning)), multiset(OfType(pre, Equal)), multiset(OfType(pre, Losing)),
        multiset(OfType(pre, NonCapture)), x, t);
    }
  }

  /** The last move of ms joins the multiset of its own bin. */
  lemma BinBag(ms: seq<Move>, t: nat)
    requires ms != []
    ensures multiset(OfType(ms, t)) ==
      multiset(OfType(ms[..|ms| - 1], t)) + if MoveType(ms[|ms| - 1]) == t then multiset{ms[|ms| - 1]} else multiset{}
  {
  }

  /** Adding x to one of four multisets adds it to their sum. */
  lemma SumBags(w: multiset<Move>, e: multiset<Move>, l: multiset<Move>, n: multiset<Move>, x: Move, t: nat)
    requires t < Types
    ensures (w + if t == Winning then multiset{x} else multiset{}) + (e + if t == Equal then multiset{x} else multiset{}) +
      (l + if t == Losing then multiset{x} else multiset{}) + (n + if t == NonCapture then multiset{x} else multiset{}) ==
      w + e + l + n + multiset{x}
  {
  }

  /**
   * The sorted moves are a permutation of ms, ordered by type, and keep the
   * order of ms within each type.
   */
  lemma ByTypeOrder(ms: seq<Move>)
    ensures multiset(ByType(ms)) == multiset(ms)
    ensures forall m :: m in ByType(ms) <==> m in ms
    ensures forall i, j :: 0 <= i < j < |ByType(ms)| ==> MoveType(ByType(ms)[i]) <= MoveType(ByType(ms)[j])
    ensures forall t :: 0 <= t < Types ==> OfType(ByType(ms), t) == OfType(ms, t)
  {
    ByTypePermutation(ms);
    forall m ensures m in ByType(ms) <==> m in ms {
      assert m in ByType(ms) <==> m in multiset(ByType(ms));
    }
    forall i, j | 0 <= i < j < |ByType(ms)|
      ensures MoveType(ByType(ms)[i]) <= MoveType(ByType(ms)[j])
    {
      ByTypeOrdered(ms, i, j);
    }
    forall t | 0 <= t < Types ensures OfType(ByType(ms), t) == OfType(ms, t) {
      ByTypeStable(ms, t);
    }
  }

  /** Permutation: sorting neither loses, adds nor duplicates a move. */
  lemma ByTypePermutation(ms: seq<Move>)
    ensures multiset(ByType(ms)) == multiset(ms)
  {
    BinsMultiset(ms);
  }
}

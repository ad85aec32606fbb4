# Bandit's engine core in Dafny

Bandit is a small chess engine that works on bitboards. Each position holds:
- for each colour and piece type, the 64-bit board of the squares where that colour's pieces of that type stand;
- the union of those boards (`All`);
- the castling rights, the en passant target, the side to move and the two move counters;
- the kings' squares;
- an incrementally maintained Zobrist bitstring.

This project models the engine's core and proves what the code promises:
- the square and bitboard primitives and the occupancy lookup `PieceOn`;
- the shifts, `attackFill` and the attack sets of every kind of piece, and `IsAttacked`;
- pseudo-legal move generation for every piece, including promotions, en passant and castling;
- the stable counting sort of the generated moves into capture classes;
- the legal-move filter, `hasLegalMove` and `IsTerminal`;
- the transition `Make` and the Zobrist hash it keeps;
- the material evaluation and the alpha-beta `negamax` search;
- the FEN reader and writer;
- long and standard algebraic notation, with disambiguation, check marks and move numbers.

**Representation.**
- A `Board` is a sequence of 64 booleans, one per square (a1 = 0, h8 = 63). The Go operators `&`, `|`, `^`, `&^`, `<<` and `>>` become the pointwise functions of `Bits`.
- A `Square` is a byte (0..255), as in Go. `Square.Board()` of a byte of 64 or more is the empty board, as `1 << s` is in Go.
- A `Position` is a datatype with the Go struct's fields in order; its bitstring `z` is a `Board` too.
- The Zobrist tables are constants with unspecified values, so the hash theorems hold for any table.

**Structure.** The operations the Go code performs by mutating copies, slices and accumulators are methods with loops:
- `Make` and `Position.Zobrist`;
- the generators with their `rangeBits` loops, and the counting sort;
- `LegalMoves`, `hasLegalMove`, `IsTerminal` and `negamax`;
- `attackFill` and the table initialisation;
- `ParseFEN` and `FEN`;
- `Algebraic` and `Text`.

Each of these methods is proved equal to a specification function, and the properties are proved about those functions. The bit expressions, `IsAttacked`, `IsCheck`, `IsLegal`, `Eval` and `LongAlgebraic` are functions.

**Versions.** The source mixes versions; the model uses one reading throughout:
- The castling rights are `Castle[c][side]` (board.go). zobrist.go's and fen.go's `QSCastle[c]`/`KSCastle[c]` are `Castle[c][QS]`/`Castle[c][KS]`, and `castleZobrist[c][QS]`/`[KS]` are `qsCastleZobrist[c]`/`ksCastleZobrist[c]`.
- `Candidates` (search.go) is `PseudoLegalMoves`.
- `IsMate` (algebraic.go) is `IsCheck && IsTerminal`.
- `FEN`'s three-result `PieceOn` is `PieceOn`, with `ok` meaning that the piece is not `None`.
- `ParseFEN`'s assignment to `pos.Opp` is dropped, since `Opp` is a method of `Position`.
- `Algebraic` and `LongAlgebraic`, present in both move.go and algebraic.go with the same text, are modelled once and cited in algebraic.go.

**Preconditions.**
- Where Go panics (`LS1B` of an empty board, `PieceOn` on a board that no piece board explains, an index past the end of a string), the model either returns a `Panicked` result or requires what rules the panic out.
- Where Go's behaviour is undefined (`Make` of a move that is illegal), the model requires what keeps its arithmetic on the board:
  - `Playable`: consistent boards, both kings' squares on the board, and each held right with its king on its home square;
  - `MoveDefined`: From and To are squares of the board, the piece is a real piece, the captured and promoted pieces are not `All`, and a castling move has room for its rook;
  - `MakeDefined`: consistent boards and a `MoveDefined` move.
- That the result is again a position worth playing from is proved separately, for the invariant `Invariants.Sound` and the moves the generators produce.

Where the source's documentation and its code disagree, the model follows the code:
- `Rank` and `File` range over 0..7, although the documentation says [0, 7).
- `ParseFEN` behaves as listed under Findings.

## Model

| member | source | states |
|---|---|---|
| Bits.Rank | board.go:14 | s lies among the eight squares from 8·rank on; the rank is below 8 for a square of the board |
| Bits.File | board.go:17 | the file is below 8 and s == 8·rank + file |
| Bits.Diagonal | board.go:20 | equals 7 + rank − file, and is at most 14 for a square of the board |
| Bits.AntiDiagonal | board.go:23 | equals rank + file, and is at most 14 for a square of the board |
| Bits.RankFileDetermine | board.go:14-17 | two squares with the same rank and file are the same square |
| Bits.DiagonalSteps | board.go:19-23 | a step to the north-east keeps the diagonal and a step to the north-west keeps the anti-diagonal |
| Bits.CornerCoordinates | board.go:13-17 | h8 has rank 7 and file 7, so both range over 0..7 inclusive and not [0, 7) as documented |
| Bits.SquareBoard | board.go:26 | `s.Board()` holds exactly square s when s < 64, and is empty otherwise |
| Bits.FileMask | board.go:101-109 | `Files[f]` holds exactly the squares of file f |
| Bits.RankMask | board.go:111-120 | `Ranks[r]` holds exactly the squares of rank r |
| Bits.XorLaws | zobrist.go:36 | `^` is associative and commutative, the empty board is its identity and every board is its own inverse |
| Bits.XorSquare | move.go:45-46 | XOR with a square's board toggles that square and leaves every other square as it was |
| Bits.AndSquare | move.go:365 | masking with a square's board keeps that square or clears it |
| Bits.LS1BIndex | board.go:274-276 | the result is the least set square, and 64 for the empty board |
| Bits.LS1BIndexSquareBoard | board.go:274-276 | `LS1BIndex(s.Board()) == s` for every square of the board |
| Bits.LS1B | board.go:266-271 | for a non-empty board: a single set square of b with no lower square of b set |
| Bits.ResetLS1B | board.go:279-284 | for a non-empty board: b without its least set square, every other square kept |
| Bits.ResetLS1BSubtracts | board.go:279-284 | read as numbers, `ResetLS1B(b) == b - LS1B(b)` |
| Bits.BitsOf | move.go:248-253 | the set squares of b, strictly ascending, each set in b, and every set square of b among them |
| Bits.BitsOfReset | move.go:249-250 | unfolding `rangeBits` once: the least set square, then the set squares of `ResetLS1B(b)` |
| Bits.RangeBits | move.go:248-253 | `rangeBits` visits exactly the squares `BitsOf(board)`, lowest first |
| Bits.PopCount | board.go:287-289 | the number of set bits, which is the number of squares `rangeBits` visits, at most 64 |
| Bits.PopCountSquare | board.go:287-289 | a square's board has a count of one |
| Bits.PopCountReset | board.go:287-289 | clearing the least set bit lowers the count by one |
| Bits.PopCountZero | board.go:287-289 | the count is 0 exactly for the empty board |
| Bits.PopCountSet | board.go:287-289 | setting a clear bit raises the count by one |
| Bits.PopCountTwo | board.go:287-289 | two distinct set bits give a count of at least two |
| Chess.Position.Opp | board.go:241 | the colour not to move, which is the other colour |
| Chess.OppInvolution | board.go:241 | `Opp` applied twice gives back the side to move |
| Chess.FirstPiece | board.go:255-259 | the first type in Pawn..King order whose board holds s; None only when no piece board holds s |
| Chess.PieceOn | board.go:245-263 | (White, None) on a square in neither `All` board; otherwise the colour whose `All` board holds s, White first, and the first type whose board holds s |
| Chess.PieceOnBoards | board.go:245-263 | `PieceOn` reads the piece boards and nothing else of the position |
| Chess.ValidArmies | board.go:225-228 | a position is valid exactly when each army is, and no square is in both `All` boards |
| Chess.ConsistentDefined | board.go:255-261 | when each `All` board is the XOR of its piece boards, `PieceOn` never reaches its panic |
| Chess.PieceOnValid | board.go:245-263 | in a valid position `PieceOn` reports the one piece standing on the square |
| Chess.PieceOnValidEmpty | board.go:245-254 | in a valid position a square `PieceOn` reports empty is in no piece board |
| Chess.CastleEmptySquares | board.go:136-145 | b1 c1 d1 for the queenside and f1 g1 for the kingside, on the home rank of c |
| Chess.CastleKingSquares | board.go:148-157 | c1 d1 e1 for the queenside and e1 f1 g1 for the kingside, on the home rank of c |
| Shifts.Step | move.go:460-468 | a square of the board, or -1 when the step leaves it (its meaning by rank and file is Shifts.StepCoordinates) |
| Shifts.StepReverse | move.go:460-468 | a step and the step back in the reverse direction undo each other |
| Shifts.ShiftStep | move.go:460-468 | each of the eight shifts moves every square one step in its direction and drops the squares whose step leaves the board: `west` and `east` never wrap between the a- and h-files |
| Shifts.DiagonalShiftStep | move.go:465-468 | the diagonal shifts are a rank shift followed by a file shift |
| Shifts.StepCoordinates | move.go:460-468 | a step lands on t exactly when t's rank and file differ from s's by the direction's deltas |
| Shifts.ShiftSquare | move.go:460-468 | shifting a single square gives the single square one step away, or the empty board at the edge |
| Shifts.ShiftEmpty | move.go:460-468 | shifting the empty board gives the empty board |
| Shifts.ShiftSquareAt | move.go:460-468 | a shifted single square holds t exactly when t lies one step from s |
| Shifts.TwoShiftsAt | move.go:392 | two shifts of a single square add their offsets; a square lost over an edge never comes back |
| Slide.AttackFill | move.go:452-458 | `attackFill` returns `FillOf`, the union of the levels of the fill shifted once more, for any piece board |
| Slide.FillStep | move.go:454-456 | one pass of the loop computes the next level and the next union |
| Slide.FillFinal | move.go:457 | whenever the loop stops, the final shift gives `FillOf` |
| Slide.LevelsEnd | move.go:454 | the loop stops: the level after eight passes is empty |
| Slide.LevelDead | move.go:454-456 | once a level is empty every later level is empty |
| Slide.WalkInjective | move.go:452-458 | a slider's walk never revisits a square |
| Slide.FillRay | move.go:452-458 | `attackFill` of a single square holds exactly the ray: the squares reached through empty squares plus the first occupied square, friend or foe |
| Slide.FillRayHit | move.go:452-458 | every square of the fill is hit by the walk through empty squares |
| Slide.HitFillRay | move.go:452-458 | every square the walk hits is in the fill |
| Slide.RayExcludesOrigin | move.go:457 | a slider never attacks its own square |
| Slide.RayStopsAtBlocker | move.go:452-458 | a slider sees nothing beyond the first occupied square of its walk |
| Slide.WalkCoordinates | move.go:460-468 | a walk of k steps moves the rank and the file by k times the direction's deltas |
| Slide.WalkReverse | move.go:460-468 | walking back from the end of a walk retraces it |
| Slide.RaySymmetric | move.go:452-458 | a slider on s attacks t in direction d exactly when a slider on t attacks s in the opposite direction |
| Attacks.LeapsSymmetric | move.go:383-392 | king steps and knight jumps lead back to where they started |
| Attacks.WhitePawnAdvances | move.go:397-399 | a white pawn advances one square onto an empty square, and two squares, through an empty square onto an empty one, exactly when it lands on the third or fourth rank (from the first or the second) |
| Attacks.BlackPawnAdvances | move.go:402-404 | the mirror image for Black: the double step lands on the sixth or fifth rank (from the eighth or the seventh) |
| Attacks.PawnAttacksSquare | move.go:407-410 | a pawn alone on s attacks exactly its two forward diagonal neighbours, whatever is on the board |
| Attacks.KingTableGeometry | move.go:386 | `kAttacks[s]` holds exactly the squares adjacent to s, with no wrap across the edges |
| Attacks.KnightTableGeometry | move.go:392 | `nAttacks[s]` holds exactly the knight jumps from s, with no wrap across the edges |
| Attacks.InitTables | move.go:380-394 | `init` fills both 64-entry tables with the king and knight geometry |
| Attacks.LeapersOfSquare | move.go:413 | `knightAttacks` and `kingAttacks` of a single square read that square's table entry |
| Attacks.BishopAttacksSquare | move.go:416-418 | a bishop alone on s attacks exactly the squares of its four diagonal rays |
| Attacks.RookAttacksSquare | move.go:421-423 | a rook alone on s attacks exactly the squares of its four orthogonal rays |
| Attacks.BishopRaysSymmetric | move.go:416-418 | a bishop on s attacks t exactly when a bishop on t would attack s |
| Attacks.RookRaysSymmetric | move.go:421-423 | a rook on s attacks t exactly when a rook on t would attack s |
| Attacks.EmptySquares | move.go:258 | a square is empty exactly when it is in neither `All` board |
| Attacks.PawnLooksOutwards | move.go:435-444 | looking outwards from s with the other colour's pawn attacks finds exactly c's pawns that capture towards s |
| Attacks.LeapersLookOutwards | move.go:447-448 | looking outwards from s finds exactly the knights and kings that reach s |
| Attacks.SlidersLookOutwards | move.go:445-446 | looking outwards along the rays finds exactly the sliders whose rays reach s |
| Attacks.AttackerOf | move.go:432-449 | an attacked square has an attacker of colour c |
| Attacks.AttackerFound | move.go:432-449 | every attacker is found by the test for its kind |
| Attacks.IsAttackedIff | move.go:432-449 | `IsAttacked` holds exactly when some piece of c attacks s by its own moves over the full occupancy, own-occupied squares included |
| Attacks.FlipRank | move.go:292 | `ep ^ 8` is the square one rank towards the centre, on the same file |
| Attacks.EligibleEPCapturers | move.go:472-494 | both results are 0 without a target, and the second is nonzero only when the first is |
| Attacks.ConsistentEPDefined | move.go:479-485 | in a consistent position `eligibleEPCapturers` never makes `PieceOn` panic |
| Attacks.EligibleEPCapturersIff | move.go:472-494 | with a valid target the results are exactly the mover's pawns that capture onto it, the western one first and 0 for a missing one |
| Attacks.EPCaptureSquares | move.go:472-494 | the squares from which the mover's pawns capture onto a valid target are those beside `ep ^ 8` |
| Attacks.PawnOnIff | move.go:479 | in a valid position `PieceOn` reports a pawn of the mover exactly where the mover's pawn board has one |
| MoveGen.CaptureOn | move.go:365-368 | a piece type or None, never `All` |
| MoveGen.PieceMoves | move.go:346-373 | `pMoves` returns `PieceMoveList`, the moves of each of the mover's pieces of type p in `rangeBits` order |
| MoveGen.MovesTo | move.go:363-370 | the inner `rangeBits` appends one move per target, capturing what `CaptureOn` finds |
| MoveGen.PieceAttacksReach | move.go:349-361 | a knight, bishop, rook, queen or king on `from` attacks t exactly when it reaches t over the empty squares |
| MoveGen.TargetsIff | move.go:363 | the targets are the squares the piece reaches that the mover does not occupy |
| MoveGen.PieceMoveListIff | move.go:346-373 | `pMoves(pos, p)` holds exactly each move of a mover's piece of type p to a square it reaches and the mover does not occupy, capturing the opponent's piece there or nothing |
| PawnGen.PawnMoves | move.go:256-299 | `PawnMoves` returns `PawnMoveList`: each pawn's advances, then its captures, then the en passant captures |
| PawnGen.PawnsFrom | move.go:269-289 | the outer `rangeBits` appends each pawn's advances and captures in square order |
| PawnGen.EPCaptures | move.go:290-297 | one en passant capture onto `ep` from each capturer, capturing a pawn |
| PawnGen.PawnTargets | move.go:270-288 | the inner loops append the moves onto each target, a capture reading its piece with `PieceOn` |
| PawnGen.MovesOnto | move.go:271-277 | on the promotion rank exactly four moves, promoting to queen, rook, bishop and knight; elsewhere one move without promotion |
| PawnGen.PawnMovesOntoIff | move.go:271-287 | the moves onto a square are the pawn's moves from `from` to `to` capturing cp, promoting as the rank demands |
| PawnGen.EPSourcesIff | move.go:292-294 | the mover's pawns beside `ep ^ 8` on its rank are the en passant capturers |
| PawnGen.AdvanceCapturesNothing | move.go:270-277 | an advance lands on an empty square and captures nothing |
| PawnGen.PawnStepsIff | move.go:269-289 | the pawn steps are exactly the pushes onto empty squares and the diagonal captures of opponent pieces |
| PawnGen.EPCapturesIff | move.go:290-297 | the en passant captures come exactly from the mover's pawns beside `ep ^ 8` |
| PawnGen.PawnMoveListIff | move.go:256-299 | `PawnMoves` holds exactly each push and diagonal capture of a mover's pawn, four times with each promotion on the last rank, and each en passant capture onto the target |
| Castling.CanCastle | move.go:327-343 | `canCastle` holds exactly when the right is held, the `CastleEmptySquares` path is empty and no `CastleKingSquares` square is attacked by the opponent; rook presence is not checked |
| Castling.AnyAttacked | move.go:335-341 | the `rangeBits` over the king's squares, which stops testing at the first attacked one, answers whether any is attacked |
| Castling.PathClearIff | move.go:331-334 | `CastleEmptySquares[c][side] &^ empty != 0` says exactly that the path is not clear |
| Castling.PathSafeIff | move.go:335-342 | one of the visited squares is attacked exactly when the king's path is unsafe |
| Castling.Wrap | move.go:318-321 | `from - 2` and `from + 2` in byte arithmetic |
| Castling.KingMoves | move.go:314-324 | `KingMoves` returns `pMoves(pos, King)`, then the queenside castling, then the kingside one, each when `canCastle` allows it |
| Castling.CastleMoveIsCastle | move.go:26-37 | `IsCastle` reads each castling move of `KingMoves` as castling to its own side |
| Castling.KingStepNotCastle | move.go:26-37 | a king step is never two squares along a rank, so it is never read as castling |
| Castling.KingMoveListIff | move.go:314-324 | `KingMoves` holds exactly the king's steps and the two castlings, each castling exactly when `canCastle` allows it |
| Bins.BinEntry | move.go:204-210 | the k-th move of a bin laid out from `index[t]` is at `index[t] + k` of `sorted` |
| Bins.BinGrow | move.go:207-208 | writing a move just past the end of its bin extends the bin by that move |
| Bins.BinKeep | move.go:207 | writing a slot outside a bin leaves the bin as it was |
| Ordering.MoveType | move.go:180-193 | one of the four types; non-capture exactly for a move that captures nothing; winning only when `Piece < CapturePiece` |
| Ordering.OfType | move.go:172-179 | never more moves than the list it selects from |
| Ordering.OfTypeHasType | move.go:172-179 | every move in the bin of type t has type t |
| Ordering.OfTypeNext | move.go:205-209 | each further move joins the end of its own bin and leaves the others as they were |
| Ordering.BinsCover | move.go:194-197 | the four bins together hold as many moves as the input |
| Ordering.ByTypeAt | move.go:204-210 | position `Start(t) + k` of the sorted moves holds the k-th move of type t |
| Ordering.SortByType | move.go:194-210 | the counting sort returns `ByType(moves)`, the bins laid end to end |
| Ordering.CountBins | move.go:194-197 | `bins[t]` is the number of moves of type t |
| Ordering.Offsets | move.go:198-203 | `index[t]` is the sum of the counts of the bins before t |
| Ordering.Place | move.go:205-209 | the move goes to the next free slot of its bin and that slot advances |
| Ordering.PlaceStep | move.go:205-209 | placing one more move keeps every bin filled up to its slot |
| Ordering.FilledSorted | move.go:204-210 | once every move is placed, the output is the sorted sequence |
| Ordering.ByTypeStable | move.go:172-173 | within each type the sorted moves keep their generation order |
| Ordering.ByTypeOrdered | move.go:172-173 | no move comes before a move of a lower type: winning, equal, losing, non-captures |
| Ordering.ByTypePermutation | move.go:194-210 | the sorted moves are a permutation of the input |
| Ordering.ByTypeOrder | move.go:172-210 | the sorted moves are a permutation, ordered by type and stable within each type |
| Generate.PseudoLegalMoves | move.go:163-211 | `PseudoLegalMoves` returns the six generators' lists appended in order, then sorted by type |
| Generate.GeneratedIff | move.go:163-170 | a move is in the appended list exactly when one of the six generators makes it |
| Generate.PseudoLegalOrder | move.go:172-211 | the result is a permutation of the generated moves in type order, stable within each type |
| Generate.GeneratedDefined | move.go:39-41 | every generated move is one `Make` applies with defined behaviour |
| Moves.IsCastle | move.go:26-37 | a king move with `From - To == 2` or `To - From == 2` in byte arithmetic; side QS for the first and KS for the second |
| Moves.ArmyToggle | move.go:43-46 | `update` toggles square s in the piece board p and in the `All` board, and nowhere else |
| Moves.ArmyRemove | move.go:43-46 | toggling a piece off its square keeps the army valid and empties that square |
| Moves.ArmyPlace | move.go:43-46 | toggling a piece onto a square the army does not hold keeps it valid and fills that square |
| Moves.ArmyToggleConsistent | move.go:43-46 | toggling keeps the `All` board the XOR of the piece boards |
| Moves.DropRight | move.go:75-78 | only the rights and `z` change, and exactly that one right is cleared |
| Moves.KeyIfToggle | move.go:47 | a piece key changes only for the toggled board and square, by that piece's key |
| Moves.PlacementToggle | zobrist.go:43-47 | toggling a piece board changes the hash of the placement by that piece's key |
| Moves.UpdateResidue | move.go:43-48 | `update` XORs the same key into `z` and into the hash of the boards, so their difference stays |
| Moves.DropRightResidue | move.go:75-83 | clearing a right keeps the difference between `z` and the hash of the position's boards, rights and side |
| Moves.CastleHashDrop | zobrist.go:48-57 | clearing a held right takes its key out of the castling keys |
| Moves.SideResidue | move.go:142-143 | passing the move toggles the side-to-move key in both `z` and the hash |
| Moves.Corner | move.go:74-79 | the corner of each right's rook: a1, h1, a8 and h8 |
| Moves.EPTarget | move.go:146 | the square a double push passes over is a square of the board |
| Moves.XorEPKeys | move.go:52-59 | XORs into `z` the en passant keys of the position's capturers, as `Make` does before and after the move |
| Moves.MovePiece | move.go:61-63 | the moving piece leaves From and arrives on To, with both keys toggled |
| Moves.Capture | move.go:65-85 | the captured piece leaves To, or `To ^ 8` en passant, and a capture on the opponent's corner clears that corner's right |
| Moves.LoseCornerRight | move.go:72-84 | a capture on a1/a8 clears the opponent's queenside right and on h1/h8 the kingside one |
| Moves.CastleRook | move.go:87-98 | castling moves the rook from `From - 4` to `From - 1` queenside and from `From + 3` to `From + 1` kingside |
| Moves.Promote | move.go:100-104 | the pawn on To is replaced by the promoted piece |
| Moves.ForfeitRights | move.go:106-132 | a king move sets `KingSquare` and clears both of the mover's rights; a rook leaving its corner clears that corner's right |
| Moves.PlacePieces | move.go:61-104 | the pieces after moving, capturing, castling and promoting, in the source's order |
| Moves.LosesRightSplit | move.go:72-132 | the rights lost to a corner capture and those forfeited by the mover are together the rights the move loses |
| Moves.Made | move.go:41-160 | the position `Make` produces has consistent boards and a defined en passant target, and keeps `z` at the same XOR distance from the hash of its boards |
| Moves.MadeRights | move.go:72-132 | after `Make`, colour c keeps its right to castle to a side exactly when it held it and the move does not lose it |
| Moves.Make | move.go:41-160 | `Make`, step by step, returns `Made(pos, m)` |
| Moves.PassMove | move.go:134-157 | the half-move clock restarts after a pawn move or capture and otherwise grows by one; the full-move number grows after Black's move; the turn passes; the target is set after a double push and cleared otherwise |
| Moves.EPKeysResidue | move.go:50-59 | taking the old en passant keys out of `z` leaves the difference with the hash of the boards |
| Moves.EPKeysRestored | move.go:145-154 | adding the new en passant keys after the turn passes restores the hash difference |
| Moves.MakeBoardsConsistent | move.go:43-104 | `Make` keeps every `All` board the XOR of its piece boards |
| Moves.MadeHash | move.go:41-160 | for valid positions before and after, if `z` is the Zobrist hash before the move it is the Zobrist hash after it |
| Zobrist.PieceKey | zobrist.go:7-24 | `pieceZobrist[c][p][sq]`; the row of None is zero |
| Zobrist.XorTwice | zobrist.go:36-38 | applying `xor` with the same key twice restores the bitstring |
| Zobrist.RightsHashBoth | zobrist.go:48-57 | the castling loops XOR in the key of each held right |
| Zobrist.ZobristOf | zobrist.go:41-68 | `Position.Zobrist` returns `Hash(pos)`: the piece keys of the occupied squares, the keys of the held rights, the en passant keys and the side-to-move key |
| Zobrist.KeysAtValid | zobrist.go:43-47 | in a valid position the key of a square is that of the one piece `PieceOn` reports there |
| Zobrist.SquaresHashValid | zobrist.go:43-47 | in a valid position the square loop hashes exactly the pieces of the piece boards |
| Zobrist.SideToMoveHash | zobrist.go:64-66 | two positions that differ only in the side to move, with no en passant pending, have hashes that differ by `blackToMoveZobrist` |
| Zobrist.SquaresHashSameBoards | zobrist.go:43-47 | positions with the same piece boards agree on the square keys |
| Zobrist.NoCapturerNoKey | zobrist.go:58-63 | an en passant target that no pawn of the mover can capture on adds nothing to the hash |
| Legality.IsCheckIff | search.go:59-61 | `IsCheck` holds exactly when some piece of the opponent attacks the mover's king |
| Legality.IsLegalIff | search.go:65-67 | `IsLegal` holds exactly when no piece of the side to move attacks the other king |
| Legality.PlayableMade | move.go:41-160 | `Make` keeps a position playable: consistent boards and kings on the board |
| Legality.LegalMade | search.go:65-67 | a move is legal exactly when `IsLegal` accepts the position `Make` produces |
| Legality.LegalFilterIff | move.go:214-224 | the filter keeps exactly the legal moves |
| Legality.LegalFilterNext | move.go:217-222 | filtering one more move appends it exactly when it is legal |
| Legality.LegalFilterConcat | move.go:214-224 | the filter keeps the order: filtering a concatenation filters each part |
| Legality.LegalListFilter | move.go:214-224 | a move is in `LegalMoves` exactly when it is pseudo-legal and legal |
| Legality.LegalListIff | move.go:214-224 | a move is in `LegalMoves` exactly when a generator makes it and it is legal |
| Legality.LegalMoves | move.go:214-224 | `LegalMoves` returns the order-preserving filter of `PseudoLegalMoves` by `IsLegal(Make(pos, m))` |
| Legality.LegalListNonEmpty | move.go:227-245 | `LegalMoves` is non-empty exactly when some generated move is legal |
| Legality.AnyLegal | move.go:238-242 | the inner loop, stopping at the first legal move, answers whether some move of the list is legal |
| Legality.IsLegalMove | move.go:218 | `IsLegal(Make(pos, m))` is the legality of m |
| Legality.HasLegalMove | move.go:227-245 | `hasLegalMove` holds exactly when `LegalMoves` is non-empty |
| Legality.SomeLegalSix | move.go:230-244 | six lists laid end to end have a legal move exactly when one of them has |
| Legality.IsTerminal | search.go:71-78 | `IsTerminal` holds exactly when `LegalMoves` is empty, which is `!hasLegalMove` |
| Invariants.TakeOff | move.go:43-48 | on valid boards, `update` of a piece that stands on s takes it off: the boards stay valid and s is empty |
| Invariants.PutOn | move.go:43-48 | on valid boards, `update` of a piece onto an empty square puts it there: the boards stay valid and s holds only it |
| Invariants.PawnMoveOrdinary | move.go:256-299 | every pawn move `PawnMoves` produces starts from the mover's pawn, lands on a square the mover does not hold, takes the opponent's piece on To (or the pawn behind the target), and promotes exactly on the last rank |
| Invariants.PieceMoveOrdinary | move.go:346-378 | every move `pMoves` produces starts from the mover's piece, lands along its attack on a square the mover does not hold, and takes exactly the opponent's piece there |
| Invariants.GeneratedKinds | move.go:163-170 | each pseudo-legal move is such an ordinary move or a castling `canCastle` allows |
| Invariants.OrdinaryBoards | move.go:61-104 | `Make` of an ordinary move keeps one piece at most on each square: the landed piece is on To and every square other than From, To and the captured square keeps its pieces |
| Invariants.CastleBoards | move.go:87-98 | `Make` of an allowed castling whose rook stands on its corner keeps one piece at most on each square, puts the king on To and leaves the opponent's pieces in place |
| Invariants.MadeValid | move.go:41-160 | from a position that keeps the invariant, `Make` of any generated move is defined and gives a valid position |
| Invariants.MakeKeepsHash | move.go:41-160 | from a position that keeps the invariant and whose `z` is its Zobrist hash, `Make` of any move `PseudoLegalMoves` returns gives a position whose `z` is again its hash |
| Invariants.DoublePush | move.go:19-22 | an ordinary double push starts on the second rank (seventh for Black), takes nothing, promotes to nothing, and passes over an empty square next to To |
| Invariants.MadeEP | move.go:145-157 | after a generated move the en passant target is empty, on the third or sixth rank, with the pawn that just passed over it one rank beyond |
| Invariants.CaptureNotKing | move.go:65-71 | the square a capture empties holds the opponent's captured piece, and in a legal position it is not the opponent's king's square |
| Invariants.OrdinaryKings | move.go:106-109 | after an ordinary move each king stands on the square `KingSquare` then records |
| Invariants.OrdinaryRooks | move.go:72-132 | after an ordinary move each right that is kept still has its rook on its corner |
| Invariants.CastleRooks | move.go:87-117 | after an allowed castling, each right the move does not forfeit (the opponent's) still has its rook on its corner |
| Invariants.MadeKings | move.go:106-117 | after a generated move from a position that keeps the invariant, each king stands on the square `KingSquare` records |
| Invariants.MadeRooks | move.go:72-132 | after a generated move from a position that keeps the invariant, each right still held has its rook on its corner |
| Invariants.SoundMade | move.go:214-224 | every move `LegalMoves` returns from a position that keeps the invariant (one piece per square, kings and castling rooks in place, a fresh en passant target, the side that moved not in check) leads to a position that keeps it |
| Evaluation.PieceEval | eval.go:3-9 | nonzero exactly for a counted piece (pawn to queen, not the king), and at most the queen's 900 |
| Evaluation.EvalMult | eval.go:12-18 | 1 for White and -1 for Black |
| Evaluation.EvalMultOpp | eval.go:12-18 | the two colours' multipliers are opposite |
| Evaluation.RelativeEval | search.go:21 | `Eval(pos) * evalMult(ToMove)` is the mover's material minus the other side's |
| Evaluation.MaterialZero | eval.go:21-35 | a colour's material is 0 exactly when it has no piece of a counted type |
| Evaluation.EvalBalanced | eval.go:21-35 | equal numbers of each counted piece type on both sides evaluate to 0 |
| Evaluation.EvalLoneKings | eval.go:21-35 | lone kings evaluate to 0 |
| Evaluation.EvalKingBishopEach | eval.go:21-35 | king and bishop against king and bishop evaluates to 0 |
| Evaluation.EvalSwap | eval.go:21-35 | swapping the colours of all pieces negates `Eval` |
| Evaluation.RelativeEvalSwap | eval.go:21-35 | swapping the colours and the side to move leaves the mover's score unchanged |
| Evaluation.EvalAdd | eval.go:21-35 | one more piece of a counted type moves `Eval` by its value towards its owner |
| Search.BestIsMax | search.go:45-47 | `Best` is the maximum of the children's scores: none is higher and one is equal |
| Search.ChildValueMade | search.go:42-43 | a child's score is minus the value of the position the move leads to, one ply shallower |
| Search.BestGrows | search.go:36-54 | looking at more moves never lowers the best score |
| Search.ValueCases | search.go:14-23 | the value is -evalInf when checkmated and 0 when stalemated, the relative evaluation at depth 0, and the best child score otherwise |
| Search.SeenBelowAll | search.go:36-54 | the best of the legal moves seen so far is at most the best of all of them |
| Search.WindowStep | search.go:42-50 | searching a child with the window (a, beta) keeps the running best correct inside (alpha, beta) |
| Search.WindowCutoff | search.go:51-53 | stopping once the running best passes beta loses nothing inside the window |
| Search.SearchStep | search.go:36-54 | one searched legal move keeps the running best equal, inside the window, to the best over the legal moves seen |
| Search.Negamax | search.go:13-56 | the zero move and -evalInf or 0 on a terminal position; the relative evaluation at depth 0; otherwise a legal move and a score at least alpha; inside [alpha, beta] the score is the negamax value |
| Search.FirstLegal | search.go:27-34 | the index and the move of the first legal move, or 0 and the zero move when none is legal |
| Search.SearchMoves | search.go:36-54 | the main loop returns a legal move and a score at least alpha that, inside [alpha, beta], is the best child score |
| Search.TryMove | search.go:37-44 | skips an illegal move; searches a legal one with the window (-beta, -alpha) one ply shallower and negates the score |
| Search.SearchPosition | search.go:7-9 | negamax over (-evalInf, evalInf): the exact value whenever it lies strictly inside, and a legal move when one exists and the depth is positive |
| Strings.Split | fen.go:61 | `strings.Split` gives at least one piece |
| Strings.SplitJoin | fen.go:61 | splitting words joined by '/' gives the words back when none holds '/' |
| Strings.Count | fen.go:47 | at most the length, and 0 exactly when the character is absent |
| Strings.CountConcat | fen.go:47 | counts add up over concatenation |
| Strings.Fields | fen.go:43 | every field is non-empty and holds no white space |
| Strings.FieldsJoin | fen.go:43 | fields written with single spaces between them are read back by `strings.Fields` |
| Strings.JoinSolid | fen.go:43 | words without white space joined by a separator that is not white space hold none |
| Strings.ToLower | fen.go:228 | each ASCII capital replaced by its lower-case letter, every other character kept |
| Decimal.Itoa | fen.go:207 | at least one character, ending in a digit; a leading minus sign exactly for a negative number, digits after it |
| Decimal.Atoi | fen.go:145-152 | a number is read only from text ending in a digit; the empty text is an error |
| Decimal.AtoiItoa | fen.go:145-152 | `Atoi` reads back what `Itoa` writes |
| Decimal.ItoaInjective | fen.go:207 | different numbers get different texts |
| Decimal.ItoaChars | fen.go:207 | `Itoa` writes neither a space, a dot nor a slash |
| Fen.RuneTables | fen.go:10-39 | both tables have the twelve piece letters as keys, and map them to real pieces |
| Fen.WhiteOrBlack | fen.go:233-234 | a missing key reads as White, so `isWhite` holds of every character that is not a black piece letter |
| Fen.PieceChar | fen.go:211-231 | one letter for a real piece, none for None and All |
| Fen.PieceCharRunes | fen.go:211-231 | the rune tables read a piece's letter back as that colour and piece |
| Fen.PieceCharWhite | fen.go:211-226 | White's letters are `pieceLetter`'s |
| Fen.GrantsIff | fen.go:124-131 | the castling loop grants a right exactly when its letter is in the field |
| Fen.EnPassantSquareName | fen.go:140-142 | `8*(rank-1) + file` reads a square's name back as that square |
| Fen.EnPassantFieldName | fen.go:134-139 | the square names the en passant check accepts are those of the third and sixth ranks |
| Fen.ParseFen | fen.go:42-155 | `ParseFEN`, step by step, returns `ReadFen(fen)`, including its panics and lost errors |
| Fen.PlaceField | fen.go:61-104 | the row loops place the rows as `PlaceRows` does; a row-square error is only ever assigned for a row whose count is not 8 |
| Fen.PlaceRowChars | fen.go:81-103 | the second loop over a row returns `PlaceRow`: a digit moves the square on, a letter toggles its boards and sets the king's square |
| Fen.CastlingRights | fen.go:124-131 | the castling loop returns `Grants`: each character grants its right in turn |
| Fen.CountedSquaresLength | fen.go:65-77 | every character is white or black, so the first row loop counts characters |
| Fen.CheckRows | fen.go:65-80 | the intended row check: no row error exactly when every row holds only piece letters and digits and covers eight squares |
| Fen.EnPassantNameRank | fen.go:134-142 | a named target lies on the third or sixth rank |
| Fen.PlaceRowConsistent | fen.go:97-98 | the boards a row builds keep each `All` board the XOR of its piece boards |
| Fen.PlacedConsistent | fen.go:81-103 | the placement built from blank boards is consistent |
| Fen.HashIgnoresZ | zobrist.go:41-68 | the Zobrist bitstring of a position does not depend on the one it records |
| Fen.ReadFenChecked | fen.go:42-155 | a result is read only from six fields, one king of each colour and eight rows of eight squares, and has consistent boards, z equal to the hash, an en passant target on the third or sixth rank, each right backed by its king and rook, and a target just passed by a pawn |
| Fen.ReadRestChecked | fen.go:106-152 | the intended reading of the fields after the placement: boards kept, z the hash, target on the third or sixth rank, counters read by `Atoi`, each granted right backed by its king on its home square and its rook on its corner, and a target that is empty with the pawn that passed it beyond it |
| Fen.Mail | fen.go:160-173 | the 64 cells `FEN` reads |
| Fen.MailAt | fen.go:163 | the cell of square s is what `PieceOn` reports |
| Fen.RankTexts | fen.go:160-180 | eight texts, rank 8 first |
| Fen.FenFields | fen.go:158-208 | `FEN` writes six fields |
| Fen.PlacementField | fen.go:160-180 | the rank loops return the placement text: each rank's pieces and gap digits, rank 8 first, '/' between ranks |
| Fen.RankField | fen.go:161-176 | the inner loop over one rank's squares returns that rank's text: for each square from file a to file h, the piece's letter, with each run of empty squares written as its length in digits before the next piece or at the end of the rank |
| Fen.Fen | fen.go:158-209 | `FEN`, step by step, returns `FenOf(pos)` |
| Fen.FenOfFields | fen.go:181-207 | the record is the placement, the side, the castling letters K Q k q in that order or "-", the target name or "-", and the two counters, one space apart |
| FenRoundTrip.GapDigit | fen.go:166-175 | a run of one to eight empty squares is written as one digit that `isNumber` accepts |
| FenRoundTrip.PlaceGap | fen.go:83-86 | the reader moves over a gap's digit by that many squares |
| FenRoundTrip.PlacePiece | fen.go:87-102 | the reader puts a piece's letter as that piece on the square |
| FenRoundTrip.PlaceRowText | fen.go:81-103 | a rank's text is read back into that rank's pieces and king squares |
| FenRoundTrip.PlacementRead | fen.go:61-104 | the placement `FEN` writes for a describable position is read back into its boards and king squares |
| FenRoundTrip.PlacementShape | fen.go:61-80 | split at its slashes the placement gives back the eight rank texts, each of piece letters and digits covering eight squares |
| FenRoundTrip.PlacementKings | fen.go:47-60 | the placement holds one king's letter of each colour |
| FenRoundTrip.CastlingRead | fen.go:117-131 | the castling field `FEN` writes passes the check and grants exactly the rights held |
| FenRoundTrip.EnPassantRead | fen.go:133-142 | the en passant field of a target on the third or sixth rank, or of none, passes the check and is read back as that target |
| FenRoundTrip.FieldsOfFen | fen.go:43 | `strings.Fields` of the record `FEN` writes gives its six fields |
| FenRoundTrip.RestRead | fen.go:106-152 | the intended reading reads the fields after the placement back as the position, z recomputed |
| FenRoundTrip.RestReadAsWritten | fen.go:106-152 | `ParseFEN` as written reads those fields back as the position with z zero |
| FenRoundTrip.FenRoundTrip | fen.go:42-209 | the intended reading of what `FEN` writes for a describable position with a correct hash gives back exactly that position |
| FenRoundTrip.FenRoundTripAsWritten | fen.go:42-209 | `ParseFEN` as written reads what `FEN` writes back as the position with z left zero |
| FenRoundTrip.ReadCheckedValue | fen.go:42-155 | the intended reading of fields that pass every check is the position they spell |
| FenRoundTrip.ReadValue | fen.go:42-155 | `ParseFEN` as written reads a record whose placement passes the king checks and places the boards as the position they spell |
| FenFindings.RowCountLost | fen.go:62-64 | a one-row record is accepted, because the row-count error is overwritten by the half-move clock's nil error |
| FenFindings.RowCountReported | fen.go:62-64 | the intended reading rejects that record for its number of rows |
| FenFindings.SquaresCountedAsCharacters | fen.go:65-80 | the first row loop counts characters: "8" counts 1 and "3ppppppp" counts 8 although it covers 10 squares |
| FenFindings.HashLeftZero | fen.go:42-155 | a record `FEN` writes is read back as its position exactly when that position's hash is zero |
| FenFindings.EnPassantOneCharacter | fen.go:134-142 | a one-character en passant field passes the check and the second byte is read past the end; the intended reading rejects it |
| FenFindings.EnPassantErrorField | fen.go:137 | an invalid en passant field is reported with the castling field's text; the intended reading reports the en passant field |
| FenFindings.FieldCountIgnored | fen.go:43-45 | the field-count error never reaches the caller: fields after the sixth are ignored, and fewer than six fields are never read as a position (fewer than two panic) |
| FenFindings.DigitCountedShort | fen.go:71-72 | the digit branch of the row count adds one square less than the digit stands for: "8" adds 7 |
| FenFindings.RooklessRightGranted | fen.go:117-131 | the castling field grants "Q" whatever stands on a1; the intended reading rejects the right when no white rook stands there |
| FenFindings.KnightInCornerValid | fen.go:42-155 | the position read from "4k3/8/8/8/8/8/8/N3K3 w Q - 0 1" is valid and playable, yet its queenside right has no rook |
| FenFindings.KnightInCornerCastles | move.go:314-343 | in that position `canCastle` allows queenside castling, so `KingMoves` and the generators produce it |
| FenFindings.CastlingOntoPiece | move.go:87-98 | when a held right's corner holds another of the mover's pieces and no rook, castling leaves that piece and a rook on one square |
| FenFindings.RooklessCastling | move.go:41-160 | `Make` of that generated castling produces a position that is not valid: a1 holds a knight and a rook |
| Notation.FileLetter | board.go:132 | `fileLetters[f]`, 'a' to 'h' |
| Notation.RankDigit | board.go:133 | `rankNumbers[r]`, '1' to '8' |
| Notation.SquareName | fen.go:205 | two characters: the file letter, then the rank digit |
| Notation.ReadSquare | fen.go:140-142 | a square it reads lies on the board |
| Notation.ReadSquareName | fen.go:205 | reading a square's name gives back the square |
| Notation.SquareNameRead | fen.go:140-142 | every name that is read is the name of the square it gives |
| Notation.PieceLetter | board.go:189 | nothing for None and one upper-case letter for each real piece |
| Notation.LetterPieceLetter | board.go:189 | each piece's letter stands for that piece |
| Notation.CastleText | algebraic.go:58-63 | either "O-O-O" or "O-O" |
| Notation.LongAlgebraic | algebraic.go:57-79 | the text is "O-O-O" exactly for a queenside castling and "O-O" exactly for a kingside one |
| Notation.ReadLongAlgebraic | algebraic.go:57-79 | the long algebraic text of a move is read back as its record |
| Notation.LongAlgebraicInjective | algebraic.go:57-79 | two moves with the same long algebraic text have the same record |
| Notation.OriginsParity | algebraic.go:20-25 | a square is in `can` exactly when an odd number of the legal moves take a piece of that type from it to the destination |
| Notation.OriginsAreOrigins | algebraic.go:20-25 | every square in `can` is the origin of such a move |
| Notation.QualifierPicksOrigin | algebraic.go:26-36 | the qualifier fits the origin and no other square of `can`: none, the file, the rank or both |
| Notation.SanBodyShape | algebraic.go:6-45 | the body is a word of letters, digits, dashes and "x" ending in a letter or digit |
| Notation.SanBodyPawn | algebraic.go:14-17 | a pawn capture starts with its origin file and "x"; a quiet pawn move starts with its destination |
| Notation.SanBodyPiece | algebraic.go:18-37 | a piece move starts with its letter and its qualifier |
| Notation.CheckMarkCases | algebraic.go:46-52 | "#" when the position is checkmate, "+" when it is check but not mate, nothing otherwise |
| Notation.AlgebraicCheckMark | algebraic.go:46-52 | the text ends in "#" exactly when the move gives check and leaves no legal reply, in "+" exactly when it gives check and a reply exists |
| Notation.AlgebraicPawn | algebraic.go:14-17 | a pawn capture's text starts with the origin file and "x", a quiet pawn move's with its destination |
| Notation.AlgebraicDisambiguates | algebraic.go:18-37 | for a piece, the qualifier after its letter picks out the origin among the origins of the legal moves of the same type to the same square |
| Notation.Algebraic | algebraic.go:6-54 | `Algebraic`, accumulating `can` over `LegalMoves`, returns `AlgebraicOf(pos, m)` |
| Notation.AlgebraicOfParts | algebraic.go:6-54 | the text is the body for the legal moves followed by the check mark of the resulting position |
| Notation.LegalOrigins | algebraic.go:20-25 | the loop over `LegalMoves` computes `can` |
| Notation.Disambiguation | algebraic.go:26-36 | the least of none, file, rank or square that tells the origin apart |
| Notation.AlgebraicBody | algebraic.go:8-45 | the part of `Algebraic` before the check mark |
| Notation.AlgebraicPlain | algebraic.go:6-54 | the standard algebraic text is a non-empty word without spaces or dots |
| Notation.ReadMoveNumber | algebraic.go:82-88 | "N." for White and "N..." for Black, with N the full-move number, read back together with the move that follows |
| Notation.ReadNumberedAlgebraic | algebraic.go:91 | the number, the side to move and the move's text can be read back from `numberedAlgebraic` |
| Notation.Entries | algebraic.go:95-111 | one entry per move, each made in the position the earlier moves lead to |
| Notation.EntriesShape | algebraic.go:95-111 | each entry is a non-empty word without spaces |
| Notation.TextEmpty | algebraic.go:95-111 | `Text` is empty exactly for no moves with White to move |
| Notation.TextSplit | algebraic.go:95-111 | split at its spaces, the text gives one word per move: its number when White moves, then its SAN; the first word also carries the number when Black starts |
| Notation.Text | algebraic.go:95-111 | `Text` returns `TextOf(pos, moves)` |
| Notation.JoinPad | algebraic.go:104-107 | one more entry is the entry, then a space unless it is the last |

## Left out

- Go's integer widths: the half-move and full-move counters are unbounded integers, and `strconv.Atoi`'s range error for numbers beyond 64 bits is not modelled.
- `Square.String` for bytes of 64 or more: the stringer output "Square(n)" is not modelled, and the model's names exist only for squares of the board.
- Decimal.Atoi: its contract covers texts of one or more decimal digits after an optional sign; the range error is not modelled.
- `Position.String` (board.go:299-313) and `pieceChar` (board.go:291-297): display only.
- Text is modelled as a sequence of Unicode scalar values. Go's `range` over a string decodes UTF-8 into runes and `fields[3][1]` reads a byte; the two agree on the ASCII text FEN uses.
- Strings.ToLower: only ASCII capitals are lowered, which covers the six piece letters it is applied to.
- Search.Negamax: the `search` parameter is always `negamax` itself, so the recursion is direct.
- Search.Negamax: a depth below zero is excluded, because the source then recurses without end.
- Search.Negamax: the position must be `Playable` (consistent boards, kings on the board), because `Make` of an arbitrary position is undefined.
- Search.SearchPosition: the exact value is promised only when it lies strictly inside (-evalInf, evalInf); at the window's edges only the clamped value is stated.
- Castling does not check that the rook stands on its corner, as the source does not; `CastleRook` toggles the rook's boards whatever stands there. The model proves instead that every held right has its rook on its corner in each position reached by legal moves from one that keeps `Invariants.Sound`, and the corrected FEN reader grants only such rights.
- Moves.Make requires `MakeDefined`: consistent boards, From and To on the board, a real moving piece, captured and promoted pieces other than `All`, and room for a castling rook. It does not require the origin to hold the piece. This is the source's "behaviour is undefined when m is illegal"; whether the result is valid is stated by `Invariants.MadeValid`.
- Moves.MadeHash requires both the position and the one `Make` produces to be valid (no square holds two pieces, and each `All` board marks exactly the squares its army occupies). Invariants.MakeKeepsHash drops the second: it requires the position to keep `Invariants.Sound` and the move to be pseudo-legal, and proves the result valid through `Invariants.MadeValid`. For positions outside `Sound` (a right without its rook, say) the hash is not promised.
- Bits.LS1B and Bits.ResetLS1B are defined by what they mean (the lowest set square, and the board without it); the `b & -b` and `b & (b-1)` idioms on a uint64 that compute them are not modelled.
- `Move` predicates `IsCapture`, `IsPromotion` and `IsDouble` (move.go:13-22) are the datatype's predicates. They have no contract of their own and are used by `Made`.
- `KnightMoves` to `QueenMoves` (move.go:301-311) are `PieceMoves` with a fixed piece type.
- `ParseFEN` builds its position in place and returns the partial position next to an error. The model returns only the error (`Failed`) or the position (`Parsed`). A panic, such as a record with fewer than six fields, is `Panicked`.
- `ParseFEN`'s assignment to `pos.Opp` (fen.go:109) is not modelled, since `Opp` is a method of `Position`.
- The Zobrist table values (zobrist.go:7-33) are unspecified constants. Every hash property is proved for any table.
- player.go, main.go and the benchmarks are not part of this model: input, output, timing and concurrency.
- Test expectations written for other versions of the source are not asserted, because the code shown gives other results. These are eval_test.go lines 8, 9, 11 and 12, `canQSCastle`, `CaptureSquare` and the three-result `PieceOn` of board_test.go.

## Findings

| source | as written | input that shows it | evidently intended | confidence | as-written member | corrected member |
|---|---|---|---|---|---|---|
| fen.go:62-64 | the row-count error is assigned without a return, and the half-move clock's `Atoi` overwrites it with nil | "Kk w - - 0 1" is accepted as a position | a record without eight rows is rejected | not executed | FenFindings.RowCountLost | FenFindings.RowCountReported |
| fen.go:69-72 | `isWhite` is true for any character missing from `RuneToColor`, so a digit is counted as one square and the `isNumber` branch is never reached; the count is the row's length | "3ppppppp" covers 10 squares and passes the count of 8 | each digit counts the squares it skips and a row covers exactly eight squares | not executed | FenFindings.SquaresCountedAsCharacters | Fen.CheckRows |
| fen.go:42-155 | `ParseFEN` never sets `pos.z` | any position whose Zobrist hash is non-zero, written by `FEN`, is read back with z zero | the reader sets z to the position's Zobrist hash | not executed | FenFindings.HashLeftZero | FenRoundTrip.FenRoundTrip |
| fen.go:134-141 | the en passant check accepts single characters, and the square is read from `fields[3][1]` | the field "e" makes the reader index past the end of the field | the field is "-" or a square name on the third or sixth rank | not executed | FenFindings.EnPassantOneCharacter | Fen.ReadRestChecked |
| fen.go:137 | the en passant error message prints `fields[2]`, the castling field | the fields "KQ" and "e9" give an error naming "KQ" | the message names the en passant field | not executed | FenFindings.EnPassantErrorField | Fen.ReadRestChecked |
| fen.go:43-45 | the field-count error is assigned without a return; a later assignment replaces it, or a missing field is indexed first | "4k3/8/8/8/8/8/8/4K3 w - - 0 1 x" is read as the six-field record, and "4k3/8/8/8/8/8/8/4K3 w" panics | a record without six fields is rejected with the field-count error | not executed | FenFindings.FieldCountIgnored | Fen.ReadFenChecked |
| fen.go:71-72 | a digit adds `char - '1'` squares, one fewer than it stands for; the branch is reached only once `isWhite` stops accepting digits | the empty rank "8" counts 7 squares | a digit adds its own value | not executed | FenFindings.DigitCountedShort | Fen.CheckRows |
| fen.go:117-131 | the castling field grants each right without checking that the king and the rook stand on their squares | "4k3/8/8/8/8/8/8/N3K3 w Q - 0 1" grants White's queenside right with a knight on a1 | a right is granted only with its king on its home square and its rook on its corner | not executed | FenFindings.RooklessRightGranted | Fen.ReadRestChecked |
| move.go:87-98 | castling toggles the rook's boards on the corner whatever stands there, and `canCastle` does not look for the rook | from "4k3/8/8/8/8/8/8/N3K3 w Q - 0 1" the generated O-O-O leaves a knight and a rook on a1 | castling is only offered while the rook stands on its corner, so `Make` keeps one piece per square | not executed | FenFindings.RooklessCastling | Invariants.MadeValid |

# HoiChess in Dafny

A model of the algorithmic core of the chess engine HoiChess, with proofs that its fast forms do what
their simple forms say.

| files | what they model |
|---|---|
| `Basic`, `Geometry`, `Moves`, `Rules` | squares, lines and walks, moves and their packed form, and the rules of chess stated on the placement of men alone (Article 3 of the FIDE Laws of Chess) |
| `Rotated`, `Tables`, `Attack` | the rotated bitboards, the tables they index, the loops that fill these tables, and the attack queries that read them |
| `Mirror`, `Board`, `Legality`, `MoveEffects` | the board with its redundant fields, `make_move` and `unmake_move`, what every run of legal moves keeps, and what a move does square by square |
| `MoveLists`, `MoveGen`, `Escapes`, `EscapeGen` | the move generators, and why the check-escape generator loses no legal move |
| `GameTree`, `Nodes`, `HashTables`, `SearchBounds`, `Search`, `Parallel`, `SlaveSearch` | plain negamax, and the principal variation search, quiescence search, transposition table, aspiration windows and parallel search that have to agree with it |
| `ChessGame`, `InitialPosition` | what a game of the search owes to the rules of chess, and the position it starts from |
| `Eval` | evaluation with two cutoffs and a side-normalised cache |
| `Text`, `Notation`, `NotationBoard`, `Fen`, `FenBoard`, `Book` | coordinate, algebraic and FEN notation, and the opening book as a map |
| `ParallelGap`, `TableGap`, `NotationGap` | runs and positions in which the program does not do what its simple form says |

How the parts are stated:

- A 64-bit word is the set of its one bits, each named by its square, given as file and rank. The loops
  that take one bit after another from a word take any of them.
- `Board` keeps its plain fields and, in the records `bits` and `keys`, the redundant ones. `Shows(p)` says
  that the plain fields are those of the position `p` and that every redundant field equals recomputation
  from the placement; the position is a ghost parameter of each method.
- The search sees a game as functions of abstract positions (`GameTree.Game`); a position stands for a board
  with the moves that led to it. `Value` and `Quiet` are plain negamax with the ply cap of the program
  built in. Move scores are arbitrary, so the results hold for every history table, killer move and
  principal variation.
- What the search promises of every run holds whatever the evaluation returns: it terminates, its results stay
  in the window, the nodes in use are those of the plies above, and a depth takes at most three root searches.
- Whatever a heuristic cuts off is counted by the program itself. `PlainSince(n)` says that there is no
  table, that these counters still add up to `n`, and that evaluation with a window agrees with the static
  value as far as the window can tell (`EvalOk`); exact values are promised under it, and at the root under
  `PlainRoot(n)`, where static values also leave room for the mate scores. `Evaluation.EvalOkIff` says when an
  evaluation meets `EvalOk`; two passed pawns a step from promotion are worth 210 and exceed its margin of 150.
- With a table there is no one value to compare with, since an entry may come from a deeper search and from another
  position with the same key. `SearchBounds.AtLeast` and `AtMost` say that a bound is shown by a tree of moves and
  entries that is nowhere less deep than asked; without a table these are exactly the bounds of the negamax value.
  `Clean(n)` says that the table was fair to begin with, every entry having been shown for its depth, and that since
  nothing has been pruned and nothing stored that an entry cannot hold: a result of a window beyond mate, which
  the program's own comment leaves open (`src/common/search.cc:1145-1150`), or one outside its window.
- `GuardsOff(g, low, beta)` describes games in which a search of that window meets none of the guards of the
  heuristics, and there the counters are proved not to move. `GameTree.GuardsOffIff` says which games these are
  when material changes its sign with the side: endings in which material and window together stay within
  300. In the full window there are none, so there the counters have to be looked at.
- Exact values of the root and of the parallel search need that both generators list the same legal moves
  (`GeneratorsAgree`). `ChessGames.ChessAgrees` proves it of chess, from `Escapes.EscapesAreLegalMoves` and the
  board invariant; `Legality.RunKeepsInvariant` is what provides that.
- A slave of the parallel search is a record of what it works on and of the answer it owes. While the master
  waits, any running slaves finish in any order. `late` counts the null-window answers that failed high but came
  after alpha had been raised, and were dropped.

Properties that the program does not have are stated as such, with the exact condition under which it has
them and a concrete case in which it does not:

| property | condition | case |
|---|---|---|
| in check, both generators list the same legal moves | `Escapes.EscapesExactly`, `EscapeGen.EscapesAndMoves` | `EscapeGen.EpBlockNotListed`, an en-passant square without a double push |
| quiescence search keeps the table true | `TableGaps.StaysTrueIff`, `HashTables.WindowTruthfulIff` | `TableGaps.GapRun`, alpha at mate |
| the parallel search returns the bounded negamax value | in every run in which no answer is late, and in all runs in PVS mode 0 or with one slave (`Parallel.Master.ShareOut`) | `ParallelGaps.LostRun`, for every other mode and number of slaves |
| the material cutoff of the evaluation does not show | `Evaluation.LazyCutoffHarmlessIff` | `Evaluation.LazyCutoffShows` |
| a cached evaluation is the evaluation, however boards are scored | not in the opening, or the same past (`Evaluation.PastForgottenIff`, `Evaluation.Evaluator.EvalTwice`) | `Evaluation.CastledRun`, before and after castling |
| `san` writes the notation of the PGN Specification | `Notation.SanIsPgnIff` | `NotationGaps.QueenSaysTooMuch` |
| a position is read back from its FEN line | `FenNotation.FenRoundTrip` | `FenNotation.LongGameIsLost` |

At the last ply quiescence search returns the static value as it is, so that a result can leave its window
at the last two plies (`src/common/search.cc:886-889`); the contracts say which bound holds at which ply.

## Model

| member | source | states |
|---|---|---|
| `Tables.AttackTables.constructor` | src/chess/bitboard.cc:81-89 | after initialisation every table entry is the set of squares it stands for: leaper and empty-board slider attacks, pawn captures, squares between, and line attacks for all 256 patterns in all four rotations |
| `Tables.AttackTables.InitAttackBb` | src/chess/bitboard.cc:164-223 | the 0x88 walks fill the attack table of every piece with exactly the squares it attacks on an empty board |
| `Tables.AttackTables.InitPawnCaptBb` | src/chess/bitboard.cc:225-266 | the pawn table holds exactly the capture squares of both colours |
| `Tables.AttackTables.InitRayBb` | src/chess/bitboard.cc:268-331 | the ray table holds exactly the squares strictly between two squares on a line, and nothing for other pairs |
| `Tables.AttackTables.InitRotAtk` | src/chess/bitboard_rotated.cc:203-260 | the nested loops fill all four rotated attack tables for every square and every line pattern, each table without disturbing the others |
| `Tables.MaskTest` | src/chess/bitboard.cc:164-184 | the 0x88 mask tells exactly whether a number the walks form is a square of the board |
| `Tables.SlidesAreAttacks` | src/chess/bitboard.cc:164-223 | a walk along all bishop or rook directions of an empty board reaches exactly the squares on its lines |
| `Tables.AttackTables.AtkIsClearLine` | src/chess/bitboard_inlines.h:320-338 | an entry picked by the shifted and masked rotated board holds exactly the squares of that line with nothing between, for every occupancy |
| `Tables.AttackTables.RotatedAttacksAreWalks` | src/chess/bitboard_inlines.h:320-338 | for every occupancy and square the rook and bishop attacks read from the four tables are the squares reached by walking each direction up to and including the first blocker |
| `Rotated.BitOfSquare` | src/chess/bitboard_rotated.cc:74-195 | in every rotation a square's bit is its line's shift plus its place on the line, inside the line's length, and the inverse table takes it back |
| `Rotated.MapBitInjective` | src/chess/bitboard_rotated.cc:74-145 | no two squares share a bit in any rotation |
| `Rotated.MapsL90` | src/chess/bitboard_inlines.h:66-72 | the expression that replaced the L90 map equals the table kept beside it |
| `Rotated.ShiftsL90` | src/chess/bitboard_inlines.h:110-116 | the expression that replaced the L90 shift equals the table kept beside it |
| `Rotated.InvTableL90` | src/chess/bitboard_inlines.h:84-90 | the expression that replaced the inverse L90 table equals it |
| `Rotated.MaskIsOnes` | src/chess/bitboard_rotated.cc:114-195 | every diagonal's mask is as many one bits as its length says |
| `Rotated.ExtractIsLine` | src/chess/bitboard_inlines.h:320-338 | shifting and masking the rotated board leaves exactly the occupancy of the line through the square |
| `Rotated.LineReachesIsClear` | src/chess/bitboard_rotated.cc:203-260 | a pattern-level clear line is a clear line of the board |
| `Geometry.WalkReaches` | src/chess/bitboard_rotated.cc:203-260 | walking in a direction up to the first blocker reaches exactly the squares ahead with an empty way between |
| `AttackQueries.PieceAtIs` | src/chess/board.cc:548-558 | piece_at reads back the man that the bitboards were built from |
| `AttackQueries.PieceAttacksAre` | src/chess/board.h:353-377 | the inline attack functions give exactly the squares attacked under Article 3 of the FIDE Laws over the present occupancy |
| `AttackQueries.PawnCapturesAre` | src/chess/board.h:328-336 | pawn_captures gives the occupied capture squares and the en-passant square |
| `AttackQueries.PawnNoncapturesAre` | src/chess/board.h:338-351 | pawn_noncaptures gives exactly the single and double advances |
| `AttackQueries.AttackersAre` | src/chess/board_attack.cc:57-83 | attackers lists exactly the squares from which a man of the side attacks the square |
| `AttackQueries.IsAttackedIs` | src/chess/board_attack.cc:28-55 | is_attacked holds if and only if some man of the side attacks the square |
| `Moves.FieldsOfPack` | src/chess/move.h:134-176 | shifting and masking the packed 32-bit word gives back all five fields of every kind of move |
| `Moves.PackInjective` | src/chess/move.h:265-278 | comparing packed words compares moves |
| `BoardState.Board.constructor` | src/chess/board.cc:77-113 | a cleared board shows the empty position, with all redundant state equal to recomputation |
| `BoardState.Board.PlacePiece` | src/chess/board.cc:583-618 | placing a man keeps all redundant state equal to recomputation from the new placement |
| `BoardState.Board.RemovePiece` | src/chess/board.cc:620-643 | removing a man keeps all redundant state equal to recomputation |
| `BoardState.Board.MovePiece` | src/chess/board.cc:645-679 | moving a man keeps all redundant state equal to recomputation |
| `BoardState.Board.SetFlag` | src/chess/board.cc:681-702 | setting a flag, held before or not, keeps the hash key equal to recomputation |
| `BoardState.Board.ClearFlag` | src/chess/board.cc:704-726 | clearing a flag, held before or not, keeps the hash key equal to recomputation |
| `BoardState.Board.SetEpsq` | src/chess/board.cc:728-739 | a new en-passant square replaces the old one's part of the hash key |
| `BoardState.Board.ClearEpsq` | src/chess/board.cc:741-748 | clearing the en-passant square takes its part out of the hash key |
| `BoardState.Board.SetSide` | src/chess/board.cc:570-581 | setting the side changes both hash keys exactly when the side changes |
| `BoardState.Board.MakeMove` | src/chess/board.cc:115-291 | after a move of any kind the board shows the position after the move in every redundant form, and the history holds what cannot be recomputed |
| `MoveEffects.MenAreMoved` | src/chess/board.cc:115-195 | square by square: the man arrives or is promoted, the square he left is empty, castling takes the rook from the corner to the square the king crossed, en passant takes the pawn beside, and nothing else changes |
| `MoveEffects.EpIsSetIff` | src/chess/board.cc:244-257 | a pawn of either colour that moves two ranks sets the square it crossed, and no other move sets one |
| `MoveEffects.RightIsKeptIff` | src/chess/board.cc:196-242 | a right is kept if and only if it was held, king and rook stay at home and nothing is captured where the rook stands |
| `MoveEffects.CountersFollow` | src/chess/board.cc:259-275 | the side changes, the move number follows Black, and the fifty-move counter starts again after a pawn move or a capture |
| `MoveEffects.CountsFollow` | src/chess/board.cc:277-285 | how often a man has moved goes with him and grows by one |
| `MoveEffects.PassFollows` | src/chess/board.cc:115-291 | a null move changes side and counters, forgets the en-passant square and nothing else |
| `BoardState.Board.UnmakeMove` | src/chess/board.cc:293-393 | unmake_move leads from the position after a move of any kind to the position before |
| `BoardState.Board.MakeAndUnmake` | src/chess/board.cc:115-393 | unmake_move after make_move restores every field of the board, for every kind of move |
| `BoardState.Board.PerformAll` | src/chess/board.cc:570-748 | over every run of piece, flag, en-passant, side and move operations all redundant state equals recomputation |
| `BoardState.EqualPositionsEqualKeys` | src/chess/board.h:277-284 | boards with equal placement, side, flags and en-passant square have equal keys, bitboards, king squares and material on whatever ways they were reached; the key without the side does not depend on the side |
| `Mirror.KeysTellApart` | src/chess/board.cc:570-581 | positions that differ only in the en-passant square or in the side have different keys unless the constants of these coincide |
| `Mirror.RightsTellApart` | src/chess/board.cc:681-702 | the same for one castling right |
| `Mirror.MenTellApart` | src/chess/board.cc:583-618 | and for one man |
| `BoardState.PseudoIsMovable` | src/chess/board.cc:399-525 | every pseudo-legal move meets what make_move needs of the men it moves and captures |
| `Mirror.BitsPut` | src/chess/board.cc:583-618 | the incremental update of all bitboards, rotated ones included, equals recomputation when a man is put down |
| `Mirror.BitsLift` | src/chess/board.cc:620-643 | the same when a man is lifted |
| `Mirror.HashAfterPut` | src/chess/board.cc:583-618 | the hash over all men changes by exactly one exclusive-or |
| `Legality.MakeKeepsInvariant` | src/chess/board.cc:196-257 | a legal move keeps the whole board invariant: home squares of castling rights, a real en-passant square, one king a side, no pawn on an end rank, opponent not in check |
| `Legality.RunKeepsInvariant` | src/chess/board.cc:196-257 | so does every run of legal moves and passes |
| `Legality.KeepsEp` | src/chess/board.cc:244-257 | the en-passant square set by a double push is empty, on the right rank, behind the enemy pawn, and the position with the push undone was legal |
| `Legality.KeepsRookHome` | src/chess/board.cc:196-242 | a castling right that survives a move has its rook on its home square |
| `MoveGen.BoardSees` | src/chess/board.h:54-64 | what the generators read from a board that shows a position is that position's |
| `MoveGen.GenerateCaptures` | src/chess/board_generate.cc:221-366 | on every orderly board generate_captures adds each exactly once the pseudo-legal captures, en passants and promotions of a mailbox specification, and nothing else |
| `MoveGen.GenerateNoncaptures` | src/chess/board_generate.cc:369-462 | generate_noncaptures adds each exactly once the other pseudo-legal moves, castling included; it shares no move with generate_captures |
| `MoveGen.GenerateMoves` | src/chess/board_generate.cc:32-37 | together they add every pseudo-legal move exactly once, and the list holds them all when there are no more than 256 |
| `MoveGen.GenerateCastling` | src/chess/board_generate.cc:646-674 | castling is added exactly for the rights that Article 3.8 allows, the king's goal square being left to the legality test |
| `MoveEffects.CastlingIsLegalIff` | src/chess/board_generate.cc:646-674 | castling is legal if and only if the right is held, the squares between king and rook are free, and no square from which, over which or to which the king moves is attacked |
| `InitialPositions.FirstMoves` | src/chess/board_generate.cc:32-38 | exactly the sixteen pawn moves and four knight moves are legal in the initial position |
| `MoveGen.InCheckIs` | src/chess/board.h:292-299 | in_check holds if and only if the king of the side to move is attacked |
| `MoveGen.IsLegalIs` | src/chess/board.h:301-304 | on the board after a move is_legal holds if and only if the side that moved has not left its king attacked |
| `EscapeGen.GenerateEscapes` | src/chess/board_generate.cc:527-638 | on every sound board in check, whatever the history of its en-passant square, generate_escapes lists each exactly once the moves of the escape rules |
| `EscapeGen.EscapesAndMoves` | src/chess/board_generate.cc:465-525 | run on one board in check, both generators list the same legal moves without duplicates, but for en-passant captures of a pawn that is not the only checker; under the full invariant they list the same without exception, as the disabled self-check intends |
| `EscapeGen.EpBlockNotListed` | src/chess/board_generate.cc:578-592 | run on a concrete board that no double push leads to, generate_escapes does not list a legal en-passant capture |
| `Escapes.EscapesAreLegalMoves` | src/chess/board_generate.cc:527-638 | a move is a legal escape if and only if it is a legal move, for every position in check with the invariant |
| `Escapes.EscapesExactly` | src/chess/board_generate.cc:553-638 | whatever the history of the en-passant square, which parse_fen does not ask for, a legal move is a legal escape if and only if it is not an en-passant capture or captures the only checker |
| `Escapes.EpBlockIsMissed` | src/chess/board_generate.cc:578-592 | in that position the legal en-passant capture blocks a check and is no escape |
| `Escapes.NoEpBlock` | src/chess/board_generate.cc:578-592 | after a real double push an en-passant capture never blocks a check, which is why the generator tries it only against the checking pawn |
| `Escapes.AnswersOneChecker` | src/chess/board_generate.cc:553-559 | a legal move other than a king move answers at most one checker |
| `MoveLists.Movelist.Add` | src/common/movelist.h:68-79 | the list keeps at most 256 moves, in the order added |
| `Nodes.Node.Pick` | src/common/node.cc:202-223 | pick returns a move of highest score among those not returned, permutes the list, and leaves the moves returned before in place, so that each is emitted exactly once |
| `Nodes.Node.First` | src/common/node.cc:155-195 | the list of a node is a permutation of what its generator lists, or of what it held after internal deepening |
| `Nodes.Node.FilterIllegal` | src/common/movelist.cc:33-43 | filtering in place by swaps keeps every legal move as often as it occurred, and no other move |
| `Nodes.Node.InitRoot` | src/common/node.cc:59-83 | the root holds exactly the legal moves, with one of them as first best move |
| `Nodes.Node.SetBest` | src/common/node.cc:295-301 | the best line is the move followed by the child's line, cut at the length of the array |
| `Nodes.Node.MakeMove` | src/common/node.cc:85-124 | the child is taken from the top of the pool with an empty move list |
| `Nodes.NodeAllocator.Alloc` | src/common/node.h:283-291 | allocation takes the next node of the pool, or fails when all are in use |
| `Nodes.NodeAllocator.Free` | src/common/node.h:293-298 | release moves the pointer back, for the node allocated last |
| `GameTree.BestOfPermutation` | src/common/search.cc:734-806 | the value of a node does not depend on the order of its moves |
| `GameTree.GuardsOffIff` | src/common/search.cc:678-729 | where material changes sign with the side, a search of a window meets no guard of the heuristics if and only if the game is an ending in which material and window together stay within 300 |
| `ChessGames.ChessAgrees` | src/common/node.cc:155-195 | in a game of chess positions the generator of the root and those of the inner nodes list the same legal moves |
| `ChessGames.NoMoveIffNoneLegal` | src/common/search.cc:810-824 | an inner node finds no legal move if and only if the rules of chess allow none, although the promotions to rook and bishop are not generated |
| `ChessGames.MateValue` | src/common/search.cc:810-824 | checkmate is valued as a mate at its ply and stalemate as a draw |
| `Searching.Search.SearchChild` | src/common/search.cc:758-770 | a null window followed, if it fails high inside the window, by the full window gives the bounded child value, and the full window alone gives the same |
| `GameTree.RootValueIsValue` | src/common/search.cc:545-644 | the value of the root equals the value of the same position as an inner node wherever both generators list the same legal moves |
| `GameTree.ValueBounds` | src/common/search.cc:810-824 | no value of a ply is below being mated at that ply nor reaches mating at it |
| `GameTree.ShortenedTo` | src/common/search.cc:711-729 | a side 900 behind the window at depth 3 is searched two plies less deep, and like one 500 behind at depth 2 or 300 behind at depth 1 only with moves that may make up for it; no other node is shortened |
| `SearchBounds.BoundsOfValue` | src/common/search.cc:646-844 | without a table the bounds that trees of moves show are exactly the bounds of the negamax value, draws, mates and standing pat included |
| `SearchBounds.HitShown` | src/common/search.cc:1099-1128 | an entry that has been shown for its depth shows the result of a search that meets it with no greater depth, if its bound decides the window |
| `SearchBounds.StoreShown` | src/common/search.cc:1135-1171 | what a result inside a window that reaches below mate and above being mated shows, its entry shows |
| `SearchBounds.TrueEntryIsShown` | src/common/search.cc:1135-1171 | an entry that says the truth of the negamax value at its depth is shown |
| `SearchBounds.DeepHit` | src/common/search.cc:1099-1128 | a hit on an entry that is true of the position is the bounded negamax value at the depth of the entry, which is no less than the depth asked for |
| `SearchBounds.LeastIsConsistent` | src/common/search.cc:646-965 | no lower bound that is shown, with a table or without, exceeds bounds on keys that hold where lines end and pass through moves |
| `SearchBounds.MostIsConsistent` | src/common/search.cc:646-965 | nor does an upper bound fall below them |
| `SearchBounds.LeastInRange` | src/common/search.cc:810-824 | no lower bound, shared or not, reaches mating at its ply |
| `SearchBounds.RootBounds` | src/common/search.cc:545-644 | without a table the bounds shown of the root are exactly those of the root value |
| `SearchBounds.AcceptedIsShown` | src/common/search.cc:491-515 | a score that fails neither low nor high has been shown of the root from both sides, or as a mate |
| `Searching.Search.SearchNode` | src/common/search.cc:646-844 | search stays in its window, uses the node pool as a stack and terminates, whatever the evaluation returns; when the table is fair to begin with, nothing has been pruned and nothing stored beyond mate, the table stays fair and the result is shown, by moves and entries, by a tree that is nowhere less deep than the depth asked for; without a table it is the negamax value bounded to the window, in every PVS mode and move order, and strictly inside the window the recorded best move attains it |
| `Searching.Search.FullLoop` | src/common/search.cc:734-806 | the move loop raises alpha to exactly what the best move searched is shown to be worth, and records that move; without a cutoff no move is worth more |
| `Searching.Search.NullMoveCuts` | src/common/search.cc:678-694 | the null move is tried exactly outside check, endings and after another null move; it cuts, and counts, if the position after it, searched three plies less deep, is shown to be worth beta, and is shown to be worth less if it does not |
| `Searching.Search.FullMove` | src/common/search.cc:743-772 | a legal move is skipped, and counted, exactly if the node is pruned and the move is quiet: no capture, no promotion, no check and no answer to one; any other is searched |
| `Searching.Search.FullMoves` | src/common/search.cc:714-833 | the result is stored with the depth that razoring and futility pruning have left |
| `Searching.Search.Shorten` | src/common/search.cc:711-729 | razoring and futility pruning are counted whenever they change the search, and never act where the guards are off |
| `Searching.Search.QuiescenceSearch` | src/common/search.cc:846-965 | quiescence search without a table, or with a true one at alpha below mate, returns the bounded quiescence value, and leaves the table true; from a fair table the result is shown, and the table left fair, unless something is stored beyond mate; a result is in its window except next to the last ply; a search that finds its slot empty and is not cut off leaves its result there |
| `Searching.Search.QuiesceSeries` | src/common/search.cc:846-965 | over any sequence of quiescence searches at any plies sharing a table every result is the one without a table |
| `Searching.Search.ProbeHashtable` | src/common/search.cc:1072-1133 | a hit is exactly an entry of the position, with a playable move if any, that was searched at least as deep as asked and whose bound decides the window, and the score is its score bounded to the window; from a fair table the result is shown for that depth, and from a true one it is the bounded quiescence value |
| `Searching.Search.StoreHashtable` | src/common/search.cc:1135-1171 | exactly the position's slot is overwritten, with the entry stated; storing a true entry keeps the table true, and storing a result that is shown and not beyond mate keeps it fair, whatever entry it replaces |
| `Searching.Search.SearchRoot` | src/common/search.cc:545-644 | the result of search_root and its best move are shown of the root; without table and pruning it returns the root value bounded to the window, and a best move that attains it when strictly inside |
| `Searching.Search.Aspire` | src/common/search.cc:461-513 | each depth makes at most three calls of search_root, counted where they are made, whatever they return and whatever the evaluation is; the accepted score is shown of the root, and without table and pruning is the root value unless it is a mate |
| `Searching.Search.Iterate` | src/common/search.cc:450-543 | every depth up to the last is searched unless time runs out or a mate is found, and a legal move is returned; aspiration windows do not change results: every accepted score is shown of the root at its depth and the returned move is worth the last one, exactly so without table and pruning, where after the last depth it attains the root value; all calls of search_root are accounted for, at most three a depth |
| `HashTables.HashTable.Put` | src/common/hash.cc:75-98 | put overwrites the one slot of the key's remainder and no other |
| `HashTables.HashTable.Probe` | src/common/hash.cc:100-155 | a probe finds exactly the entry in the position's slot that has its key and whose move, if any, is valid and legal |
| `HashTables.StoredTruthfullyIff` | src/common/search.cc:1145-1150 | a fail-hard result is stored as a true statement if and only if it is neither a fail-low at an alpha beyond mate nor a fail-high at a beta beyond being mated |
| `HashTables.WindowTruthfulIff` | src/common/search.cc:1145-1150 | every result of a window is stored truthfully if and only if its alpha is below mate and its beta above being mated |
| `TableGaps.FalseEntry` | src/common/search.cc:1145-1150 | a quiescence search of any calm position with alpha at mate or above, which finds its slot empty, makes the table false |
| `TableGaps.StaysTrueIff` | src/common/search.cc:846-965 | for every calm position whose slot is empty, quiescence search keeps a true table true if and only if alpha is below mate |
| `TableGaps.GapRun` | src/common/search.cc:1145-1150 | a run on a concrete game: searched above mate, a balanced position is left in the table as a forced mate |
| `HashTables.QuietSame` | src/common/search.cc:846-965 | where lines of tactical moves end before the ply cap, the quiescence value depends neither on the ply nor on which position with the key is searched |
| `HashTables.ProbeIsTrue` | src/common/search.cc:1072-1133 | an entry met at any ply of a calm position is true there |
| `HashTables.StoreIsTrue` | src/common/search.cc:1135-1171 | what a quiescence search with alpha below MATE and beta above -MATE stores is true of every position with the key |
| `Parallel.Master.Remaining` | src/common/parallelsearch.cc:339-468 | for every completion order: the moves given to slaves are the first ones after the searched one, each once and all of them unless there is a cutoff, slaves are started for no other reason than to search a move again, alpha never exceeds what the recorded move scores, and all slaves end free with an empty queue; unless a late null-window answer has been dropped no move scores above the final alpha, and none is dropped while alpha has not been raised, in PVS mode 0, or with one slave |
| `Parallel.Master.HandNext` | src/common/parallelsearch.cc:343-393 | a free slave is started on the next move, with a null window or a full one as the PVS mode says, and the move is logged as handed out |
| `Parallel.Master.SearchAgain` | src/common/parallelsearch.cc:422-435 | a slave whose null window failed high inside the window is started again on its move with the full window |
| `Parallel.Master.Release` | src/common/parallelsearch.cc:437-467 | an answer that is not searched again frees its slave, raises alpha and is recorded as the best score with its move; the best score stays equal to alpha, and below beta alpha stays exactly what the recorded move scores; an answer from a null window that failed high below the present alpha is counted as dropped |
| `Parallel.Master.Settle` | src/common/parallelsearch.cc:422-467 | a null-window answer strictly inside the window, and no other, starts its slave again with the full window; every other answer is taken, raising alpha to no more than the recorded move scores, and cuts off and aborts all slaves if it reaches beta |
| `Parallel.Master.Round` | src/common/parallelsearch.cc:410-468 | one answer is taken from the queue and either searched again, or raises alpha, or cuts off and aborts all slaves |
| `Parallel.Master.WaitSlaveReady` | src/common/parallelsearch.cc:100-103 | the slave taken is busy and finished, and every other finished slave remains in the queue exactly once |
| `Parallel.Master.Finish` | src/common/parallelsearch.cc:159-174 | a finishing slave enters the queue exactly once |
| `Parallel.Master.AbortAllSlaves` | src/common/parallelsearch.cc:105-125 | after an abort all slaves are free, their pools and the queue empty |
| `Parallel.Master.ShareOut` | src/common/parallelsearch.cc:295-468 | given bounded child values, in every PVS mode and completion order the result lies between the first move's score and the bounded negamax value, and strictly inside the window it is the score of the move recorded as best; it equals the bounded value unless a late answer has been dropped, which cannot be if the result is the first score, in mode 0, or with one slave |
| `Parallel.Master.ParallelNode` | src/common/parallelsearch.cc:223-505 | a parallel node begins and ends with all slaves idle and stays in its window; if nothing is pruned and no late answer dropped it returns the bounded negamax value, and strictly inside the window the best move it records attains it; none is late in PVS mode 0 or with one slave |
| `Parallel.Master.SearchNode` | src/common/parallelsearch.cc:185-221 | the parallel search begins and ends with all slaves idle, stays in its window, and returns the bounded negamax value if nothing is pruned and no late answer dropped, which none is in PVS mode 0 and in every mode with one slave |
| `Parallel.Master.Nonparallel` | src/common/parallelsearch.cc:507-569 | one slave searches the whole node: a free slave is found, the slave that reports is the one started, and the queue is empty again |
| `ParallelGaps.LostRun` | src/common/parallelsearch.cc:343-467 | for PVS modes 1 and 2 and every number of slaves above one, a run of the master on a concrete game drops one late answer, values a node 50 whose bounded value is 80, and records the move that scores 50 |
| `ParallelGaps.GapIsSane` | src/common/parallelsearch.cc:295-468 | that game meets everything the exact results ask for |
| `SlaveSearches.SlaveMain` | src/common/search.cc:399-443 | what a slave answers is what the search it runs returns: a score in its window, shown by its own table and moves, and without table and pruning the bounded child value, for a null window and a full one |
| `Parallel.ParallelResult` | src/common/parallelsearch.cc:295-468 | what the master loop promises about alpha makes it the bounded negamax value |
| `Parallel.ParallelSandwich` | src/common/parallelsearch.cc:295-468 | in every mode the result is at least the first score and at most the bounded value, and inside the window the recorded move attains it |
| `OpeningBook.HashFuncFits` | src/common/book.cc:388-396 | the probe arithmetic stays below 2^64 |
| `OpeningBook.ProbesMeetIff` | src/common/book.cc:388-396 | two probes of a key meet in a slot if and only if the steps between them come to a multiple of the size |
| `OpeningBook.PrimeProbesAll` | src/common/book.cc:388-396 | in a book of prime size the probes of a key go to every slot, unless its step is 0 |
| `OpeningBook.NoRoomIff` | src/common/book.cc:347-386 | a book of prime size has no room for a key if and only if all its slots are taken by others, or with step 0 its one slot is |
| `OpeningBook.Book.Put` | src/common/book.cc:347-386 | a put that returns true updates exactly the entry's key of the map; it returns false if and only if every slot of the key's probe sequence is held by other keys, and then changes nothing |
| `OpeningBook.Book.Lookup` | src/common/book.cc:321-345 | a lookup returns the map's entry exactly when its moves can be played on the board, also when the probe step is 0 |
| `OpeningBook.WriteRefines` | src/common/book.cc:347-386 | one slot write is one map update: every other key finds what it found before |
| `OpeningBook.WriteKeepsReachable` | src/common/book.cc:347-386 | every entry stays reachable by the probes of its own key |
| `Evaluation.BalanceOdd` | src/chess/eval.cc:77-86 | changing sides changes the sign of the material balance, truncating division included |
| `Evaluation.BalanceNearLead` | src/chess/eval.cc:43-75 | the side ahead is credited with its lead and at most an eighth more |
| `Evaluation.TradesFavourTheLead` | src/chess/eval.cc:43-75 | trading like for like never lowers the lead of the side ahead |
| `Evaluation.Numbers` | src/chess/eval.cc:55-100 | the program's own examples of the balance, the phases, and the margin of the first phase |
| `Evaluation.EvalOdd` | src/common/eval.cc:54-146 | evaluation from the other side with the window turned round changes the sign of every score, through both cutoffs |
| `Evaluation.LazyCutoffHarmlessIff` | src/common/eval.cc:73-82 | the material cutoff is invisible in every window if and only if the rest of the evaluation never exceeds the cutoff margin |
| `Evaluation.LazyCutoffShows` | src/common/eval.cc:73-82 | a concrete evaluation and window in which the cutoff changes the result |
| `Evaluation.EvalOkIff` | src/common/eval.cc:54-146 | what the search asks of an evaluation with a window holds of a game evaluated this way if and only if no position exceeds the cutoff margin |
| `Evaluation.Evaluator.Eval` | src/common/eval.cc:54-146 | beyond the material cutoff a score held in the cache is returned as it is, and otherwise the full evaluation is returned and stored in exactly its slot; so outside the opening an evaluation through a true cache equals one without a cache, and every evaluation leaves a true cache true |
| `Evaluation.Evaluator.EvalAll` | src/common/eval.cc:54-146 | so over every run of evaluations |
| `Evaluation.PutIsTrue` | src/common/evalcache.cc:58-66 | a side-normalised score is true for both sides to move |
| `Evaluation.PastForgottenIff` | src/common/evalcache.cc:58-86 | two boards that share a key have the same score for white, however boards with their material are scored, if and only if they are not in the opening or have the same past |
| `Evaluation.Evaluator.EvalTwice` | src/common/eval.cc:84-139 | of two boards that share a key the second is given the score of the first, seen from its own side, which is right if and only if both are worth the same to white |
| `Evaluation.CastledRun` | src/chess/eval.cc:674-735 | for any men in the opening, a run of the evaluator through one cache gives a board after white has castled the score it had before, which is 32 too little, or 16 if white was still allowed to castle |
| `Evaluation.SameMoved` | src/chess/eval.cc:682-720 | score_devel sees of the move counts only which men have moved |
| `InitialPositions.InitialDevel` | src/chess/eval.cc:674-735 | white begins with four undeveloped minor pieces and the right to castle |
| `Notation.StrInjective` | src/chess/move.cc:96-107 | legal moves of one position have different coordinate forms |
| `Notation.StrIsSpelled` | src/chess/move.cc:96-107 | the coordinate form is origin and destination by file and rank, and the promotion piece in lower case |
| `Notation.SanDecides` | src/chess/move.cc:143-238 | the official algebraic form of a legal move is no form, official or relaxed, of any other legal move |
| `Notation.SanIsSpelled` | src/chess/move.cc:143-238 | the official form is spelled as sections 8.2.3.2 to 8.2.3.5 of the PGN Specification ask, O-O towards the h-file and O-O-O towards the a-file, with the file of origin if a rival stands on another file and the rank if one stands on the same |
| `Notation.SanEndsIn` | src/chess/move.cc:224-235 | it ends in + exactly for check that is not mate, and in # exactly for checkmate |
| `Notation.SanIsNotStr` | src/chess/move.cc:96-238 | no algebraic form is a coordinate form |
| `Notation.SanFits` | src/chess/move.cc:145-147 | every algebraic form fits the eight-character buffer with its terminator |
| `Notation.Disambiguate` | src/chess/move.cc:164-192 | over the list of all legal moves the loop finds exactly whether the file or the rank of origin is needed |
| `Notation.WriteSan` | src/chess/move.cc:143-238 | given all legal moves and the check or mate after the move, san writes its notation in all six variants, with file and rank of origin as its loop finds them needed |
| `Notation.SanIsPgnIff` | src/chess/move.cc:164-192 | the official form of a pseudo-legal move is that of section 8.2.3 of the PGN Specification, spelled without the text that san is built from, if and only if not both file and rank are written where the rank alone tells the piece from its rivals |
| `NotationGaps.QueenSaysTooMuch` | src/chess/move.cc:164-192 | a concrete legal move that the standard writes Q1e5 and san writes Qa1e5 |
| `Notation.ParseMove` | src/chess/board_util.cc:370-400 | parse_move returns no move that is not legal; if all legal moves are listed it returns one that the string names, or none if there is none, and returns m for the coordinate form and for the official algebraic form of every legal move m |
| `NotationBoards.ParseMoveOn` | src/chess/board_util.cc:370-400 | on a board alone, which generates, makes and unmakes the moves it compares with and is left as it was, no move is returned that is not legal, and unless a move list is too short the text is read as by parse_move |
| `NotationBoards.IsLegalMove` | src/chess/board.cc:527-534 | making a move and looking at the king tells whether it is legal, and leaves the board as it was |
| `NotationBoards.LegalMoves` | src/chess/board_util.cc:377-381 | generating and filtering lists legal moves only, and all of them unless there are more pseudo-legal moves than a list holds |
| `Text.ReadIntCut` | src/chess/board_util.cc:248-254 | a decimal number whose last characters are cut off is never read back |
| `Text.PairCut` | src/chess/board_util.cc:248-254 | two numbers cut short are never read back |
| `FenNotation.ReadBoard` | src/chess/board_util.cc:194-231 | the placement field of every placement is read back |
| `FenNotation.FlagsBack` | src/chess/board_util.cc:238-246 | the castling field of every set of flags is read back |
| `FenNotation.FlagsAccepted` | src/chess/board_util.cc:324-337 | exactly the words of the letters K, Q, k, q and - are accepted, and a right is set if and only if its letter occurs |
| `FenNotation.PlacementAccepted` | src/chess/board_util.cc:277-314 | an accepted placement holds nothing but men, digits and slashes |
| `FenNotation.EpBack` | src/chess/board_util.cc:338-352 | the en-passant field is read back exactly when it names the third or sixth rank |
| `FenNotation.EpAccepted` | src/chess/board_util.cc:339-353 | exactly a dash, or a file with the rank 3 or 6, is accepted |
| `InitialPositions.InitialLine` | src/chess/board_util.cc:194-257 | get_fen writes the line of the initial position that section 16.1.4 of the PGN Specification gives |
| `FenNotation.FenRoundTrip` | src/chess/board_util.cc:194-363 | a position is read back from its FEN line if and only if its board is valid, its en-passant square is on rank 3 or 6 and the last three fields fit the twenty-byte buffer |
| `FenNotation.FenRestores` | src/chess/board_util.cc:194-363 | under the board invariant it is read back if and only if the counters fit |
| `FenNotation.LongGameIsLost` | src/chess/board_util.cc:248-254 | a concrete valid board whose nine-digit counters do not fit is not read back |
| `FenBoards.GetFen` | src/chess/board_util.cc:194-257 | get_fen writes the FEN line of the position that the board shows |
| `FenBoards.ParseFen` | src/chess/board_util.cc:260-363 | parse_fen gives a board that shows the position read, with all redundant state, and nothing for a rejected text |
| `FenBoards.SetUp` | src/chess/board.cc:39-75 | a board set up man by man shows the given position in every redundant form |
| `FenBoards.CopyThroughFen` | src/chess/board_util.cc:194-363 | a board written as a FEN line and read back has the same placement, side, flags, en-passant square, counters, hash keys, bitboards, king squares and material |

## Left out

- Fail-soft search: only the fail-hard setting, the default, has one reference value.
- `stop`, time checks, time extension and the results after an abort by time: `stop` stays false.
- `is_repetition` and the other parts of `is_draw`: a draw is given by the game, as a function of the position.
- The lines of moves kept in the transposition table, killer moves and the history table: they only order moves, and the order is arbitrary.
- Searching.Search.SearchNode: with a table nothing is shown of a run that stores a result of a window beyond mate; `TableGaps.FalseEntry` is why. A single exact value is promised without a table only.
- Searching.Search.QuiescenceSearch: with a table, a single value is promised where lines of tactical moves end before the ply cap; at the cap the value depends on the ply and no entry could be true for all plies.
- Searching.Search.Iterate: a score beyond a mate bound only tells who is being mated, since the window may have cut it there.
- Parallel.Master.SearchNode: slaves' answers are bounded child values, as `SlaveSearches.SlaveMain` finds them without table and pruning; nothing is claimed about the master's own table, where a result is stored under the child with the sign of the parent.
- Parallel.Master: threads, mutexes and the slaves' own search objects; each slave's finishing is one atomic step.
- MoveGen.GenerateMoves: of more than 256 moves the list holds the first 256; the contract then is about the moves added.
- The bits of a word are not modelled as an integer, and `lsb`, `msb` and `popcnt` are those of sets.
- `BoardState.Board.moveno` and `movecnt50` are unbounded integers; the counts of how often men have moved wrap around as 32-bit words do.
- FenBoards.ParseFen: says nothing about a text that puts two men on one square or a man beyond the board, after which the fields of the program's board belong to no placement; the board is built once the text has been read and each side is known to have one king, not while reading; numbers do not overflow.
- Notation.ParseMove: the variant that also accepts pseudo-legal moves is not covered by the round trip.
- NotationBoards.ParseMoveOn: a text is read back if the position and those after its legal moves have no more pseudo-legal moves than a move list holds, and otherwise the move returned is only known to be legal; the program copies a board to make a move on it, the model makes and unmakes it.
- `do_parse_move_1`, `str2`, `is_valid_move`, `autoselect` and `pinned`.
- OpeningBook.Book: the file is an array of slots; byte order, the header and `BookEntry::choose` are left out.
- Positional scores other than those of `score_devel` are arbitrary functions of position and side; the pawn hash table is one of them.
- Xiangqi, games and their undo list, the clock, PGN import, the shell and the xboard protocol: easier members or input and output.

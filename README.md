# Board mechanics of the s0tt/chess engine, in Dafny

This project models the board mechanics of a small Python chess engine and
proves properties of them:

- the shared helpers and code tables (`misc.py`): colour flip, square and
  coordinate conversion, piece names, FEN letters, move-type codes and
  promotion codes;
- the pseudo-legal destination generator `MoveGen.allowed_moves`
  (`moves.py`): a 10x12 mailbox walk for knight, bishop, rook, queen and
  king, and a table-driven pawn branch;
- the older generator `MoveGenerator.allowed_moves` (`movegen.py`). It uses
  the same geometry but different stopping rules and a slide list that is
  shifted by one;
- `Model.move_piece` (`model.py`): the guards, the in-place update of the
  piece and colour arrays, castling, en passant, the move history and the
  turn;
- the minimax search `MiniMax.search`, `maxi` and `mini` (`search.py`) over
  a game given as a finite tree.

The board is two 64-entry integer arrays:

- pieces: -1 is empty; 1 to 6 are pawn, knight, bishop, rook, queen and king;
- colours: -1 is empty, 0 is the side that starts at the bottom, 1 the other
  side.

Modules and files:

- misc.dfy (`Misc`): pure functions and table lemmas.
- moves.dfy (`Moves`): the mailbox tables. The methods read them in closed
  form (`Mailbox`, `Mailbox64`), and `MailboxTables` proves these equal to
  the source's literals (`MailboxTable`, `Mailbox64Table`). Then come the
  recursive specification of each direction's walk (`RayMoves`,
  `PieceMoves`, `PawnDestinations`), and the methods over read-only arrays
  that are proved against it (`WalkRay`, `PieceAllowedMoves`,
  `PawnAllowedMoves`, `AllowedMoves`).
- movegen.dfy (`MoveGenerator`): the older walker. It yields an `Outcome`,
  which is the ordered list of destinations or the IndexError that
  `slide[6]` raises.
- model.dfy (`BoardModel`): the update as pure functions on a `Board`
  value, and a class `Model` whose methods update the arrays in place.
- search.dfy (`Search`): the values `MaxiValue`/`MiniValue` and the
  classes `GameModel` and `MiniMax`. Their loops play each move, search one
  level down and take the move back.

Most preconditions keep every array index the source computes inside 0..63;
outside that, numpy would wrap a negative index around or raise IndexError.
The preconditions that go further are listed, with their reasons, under
"Left out".

## Model

| member | source | states |
|---|---|---|
| Misc.Invert | misc.py:11 | the dictionary comprehension that swaps keys and values, on an injective table, gives a table whose keys are the old values and maps every value back to its key |
| Misc.OpponentColor | misc.py:14-15 | `c ^ 1` keeps all but the lowest bit and flips that bit, for every integer |
| Misc.OpponentColorSwaps | misc.py:14-15 | the flip exchanges colour 0 and colour 1 |
| Misc.OpponentColorInvolution | misc.py:14-15 | flipping twice gives back the colour |
| Misc.Grid2Continuous | misc.py:18-19 | the row-major index `row * boardDim + col`, with the same default board size 8; GridRoundTrip and ContinuousRoundTrip prove it inverse to Continuous2Grid |
| Misc.Continuous2Grid | misc.py:22-25 | the column is in 0..boardDim-1 (floor division and modulo) |
| Misc.GridRoundTrip | misc.py:18-25 | `continous2grid(grid2continous(r, c)) == (r, c)` for every row and every column 0 <= c < boardDim |
| Misc.ContinuousRoundTrip | misc.py:18-25 | `grid2continous(continous2grid(i)) == i` for every index |
| Misc.PieceNamesDecode | misc.py:32-41 | `piece_str_to_type` has the six names as keys and maps each to its code 1..6 |
| Misc.PieceNamesRoundTrip | misc.py:32-41 | `piece_types` and `piece_str_to_type` are inverse tables |
| Misc.ColorNamesRoundTrip | misc.py:6-11 | `col_int_to_str` maps 0 to "w" and 1 to "b" and inverts `board_color` |
| Misc.FenLetters | misc.py:52-59 | the FEN letters "pnbrqk" map to the codes 1..6 in order, and no two letters share a code |
| Misc.FenRoundTrip | misc.py:52-61 | `fen_codec_reverse[fen_codec[l]] == l` for each letter, and the reverse table has exactly the codes 1..6 |
| Misc.MoveTypesRoundTrip | misc.py:80-96 | `move_types` and `move_desc` are inverse tables |
| Misc.MoveCodeFlags | misc.py:80-95 | bit 8 of a move code is set exactly when its name contains "promo_", and bit 4 exactly when it contains "capture" |
| Misc.MoveCodeFlagsPlain | misc.py:80-86 | the same two facts for the codes below 8, checked name by name |
| Misc.MoveCodeFlagsPromo | misc.py:87-95 | the same two facts for the promotion codes 8..15 |
| Misc.PromotionPieces | misc.py:98-107 | `move_promo_to_piece` has keys 8..15 and maps code c to knight + c mod 4, so c and c + 4 give the same piece |
| Moves.MailboxCellUpper | moves.py:17-22 | entries 0 to 59 of `mailbox` are -1 on the frame and, for an inner cell x, the square in row x/10 - 2 and column x%10 - 1 |
| Moves.MailboxCellLower | moves.py:23-28 | the same for entries 60 to 119 of `mailbox` |
| Moves.Mailbox64Cell | moves.py:29-36 | entry s of `mailbox64` is 21 + 10*(s/8) + s%8 |
| Moves.MailboxTables | moves.py:17-36 | the two closed-form tables the walk reads are exactly the `mailbox` and `mailbox64` literals |
| Moves.MailboxRoundTrip | moves.py:17-36 | `mailbox[mailbox64[s]] == s` for every square, and a mailbox cell that holds a square is the cell `mailbox64` gives for that square, so every other cell is -1 |
| Moves.SquareRoundTrip | moves.py:17-36 | the closed forms of the two tables invert each other on the squares |
| Moves.CellRoundTrip | moves.py:17-36 | the closed forms invert each other on the cells that hold a square |
| Moves.Step | moves.py:61 | one mailbox step gives -1 or a square, and the square's cell is the origin's cell plus the step |
| Moves.StepIsTableLookup | moves.py:61 | Step is the two-table lookup `mailbox[mailbox64[sq] + d]`, and the index stays in 0..119 |
| Moves.StepGeometry | moves.py:17-36 | a step of at most two rows and two columns leaves the board exactly when its row or its column does, and otherwise lands 8*dr + dc squares away |
| Moves.Walk | moves.py:60-61 | k repeated steps give -1 or a square |
| Moves.OffsetsRow | moves.py:37-44 | every piece code 1..6 has a row in `offsets`, as OffsetRow spells it out |
| Moves.DirectionCount | moves.py:37-44 | a piece has at most 8 directions, and none exactly when it is a pawn |
| Moves.Direction | moves.py:37-44 | every direction of a piece is a non-zero step of at most two mailbox rows |
| Moves.SlidingPieces | moves.py:45 | the slide list has 7 entries and marks exactly bishop, rook and queen |
| Moves.RayMoves | moves.py:58-77 | one direction adds only squares that are empty or hold a colour other than the mover's; without sliding it adds at most the first step |
| Moves.RayMovesReach | moves.py:58-77 | a square is added by one direction exactly when some number of steps reaches it, every square passed before it is empty, it is empty or holds another colour, and more than one step is only taken by a sliding piece |
| Moves.PieceMoves | moves.py:57-77 | the union over the first n directions adds only squares that are empty or hold another colour |
| Moves.PieceMovesReach | moves.py:57-77 | the non-pawn result is exactly the set of squares that some direction reaches in the sense of RayMovesReach |
| Moves.SteppingPieceMoves | moves.py:45-77 | knight and king get at most one square per direction, so at most 8, each exactly one mailbox step from the origin |
| Moves.PawnDestinations | moves.py:79-99 | every pawn destination is a square that is empty or holds the opponent colour |
| Moves.PawnPushSet | moves.py:81-91 | the pushes offer only squares that are empty |
| Moves.PawnCaptureSet | moves.py:83-99 | the captures offer only squares holding the opponent colour |
| Moves.PawnDestinationsExactly | moves.py:79-99 | the four candidates with their exact conditions: single push iff empty; double push iff on the first row and the target is empty; each diagonal iff it holds `c ^ 1` and the first capture step from the origin is on the board |
| Moves.DoublePushIgnoresJumpedSquare | moves.py:89-91 | whether the double push is offered does not depend on the square it jumps |
| Moves.CaptureStep | moves.py:49-50 | each `pawn_captures64` entry is the mailbox step to a diagonal one row forward, and the matching `pawn_captures` entry names the same square when that diagonal is on the board |
| Moves.RightCaptureWrapsAround | moves.py:94-99 | as written, a colour-0 pawn on square 48 is offered square 39, which is not on the row in front of it |
| Moves.HFileCaptureMissed | moves.py:94-99 | as written, a colour-0 pawn on square 55 is not offered its diagonal neighbour 46 of colour 1, which the corrected branch offers |
| Moves.DoublePushJumpsBlocker | moves.py:87-91 | as written, a colour-0 pawn on 48 is offered 32 even when 40 is occupied |
| Moves.PawnDestinationsIntended | moves.py:79-99 | the corrected pawn branch offers only squares |
| Moves.DiagonalCapture | moves.py:94-99 | the corrected capture along one diagonal offers nothing or exactly the `pawn_captures` square, and only when that diagonal's own step is on the board and the square holds the opponent colour |
| Moves.PawnDestinationsIntendedExactly | moves.py:79-99 | in the corrected branch each diagonal has its own edge test and the double push needs the square it passes to be empty; each candidate is offered iff its condition holds |
| Moves.PawnDestinationsIntendedSound | moves.py:79-99 | everything the corrected branch offers is a push onto an empty square, a double push from the first row over an empty square, or a capture of the opponent colour on a diagonal neighbour one row forward |
| Moves.PawnDestinationsIntendedComplete | moves.py:94-99 | the corrected branch offers a diagonal neighbour one row forward exactly when it holds the opponent colour |
| Moves.WalkRay | moves.py:58-77 | the `while expanding` loop returns exactly RayMoves for its direction |
| Moves.AddPawnPushes | moves.py:87-91 | the two push tests add exactly PawnPushSet to the moves found so far |
| Moves.AddPawnCaptures | moves.py:94-99 | the two capture tests, both behind the first capture step's table lookup, add exactly PawnCaptureSet |
| Moves.PawnAllowedMoves | moves.py:79-99 | the pawn branch returns exactly PawnDestinations |
| Moves.WalkDirections | moves.py:57-77 | walking the first n directions of the piece's offsets row, one `while expanding` walk each, returns exactly PieceMoves over those n directions |
| Moves.PieceAllowedMoves | moves.py:56-77 | the `for` loop over the offsets returns exactly PieceMoves over all the piece's directions |
| Moves.AllowedMoves | moves.py:54-100 | `allowed_moves` returns PieceMoves for a non-pawn and PawnDestinations for a pawn |
| MoveGenerator.GenSlideShifted | movegen.py:47 | the six-entry slide list is set exactly for the codes of knight, bishop and rook, not for the queen, and has no entry for the king |
| MoveGenerator.GenRay | movegen.py:57-73 | a successful walk appends only squares that are empty or hold another colour than the origin's |
| MoveGenerator.GenRayError | movegen.py:47-73 | one direction raises IndexError exactly when the piece code is past the slide list and the walk reaches an empty square over passable squares |
| MoveGenerator.GenRayReach | movegen.py:57-73 | a successful direction yields exactly the squares reached over passable squares: an enemy square is added and the walk continues, an own-colour square ends it, an empty square ends it unless the slide entry is set |
| MoveGenerator.RayOutcomes | movegen.py:54-58 | one walk per direction of the piece, in the order of its offsets |
| MoveGenerator.GenAll | movegen.py:53-74 | the loop over the piece's directions: the per-direction outcomes joined in direction order, the first IndexError ending the call; GenAllSquares, GenAllError and GenAllReach state its properties |
| MoveGenerator.GenAllSquares | movegen.py:57-73 | every destination of a successful run is a square that does not hold the mover's colour |
| MoveGenerator.GenAllError | movegen.py:47-73 | the run fails exactly when some direction fails, and only a king can make it fail |
| MoveGenerator.GenAllReach | movegen.py:54-73 | a successful run yields exactly the squares some direction reaches in the sense of GenRayReach |
| MoveGenerator.GenWalk | movegen.py:55-73 | the `while expanding` loop returns exactly GenRay for its direction, or the IndexError |
| MoveGenerator.AllowedMoves | movegen.py:51-74 | a pawn yields the empty list; any other piece yields the walks of its directions in order (GenAll), or the first IndexError |
| BoardModel.InitialLayout | model.py:20-37 | the arrays the constructor sets up, square by square: back ranks on rows 0 and 7, pawns on rows 1 and 6, empty rows between them, colour 1 on top and colour 0 below |
| BoardModel.InitialBoardWellFormed | model.py:20-37 | the initial board is well formed (a piece exactly where there is a colour), with the kings on squares 4 and 60 |
| BoardModel.GateOf | model.py:89-112 | a move passes the guards only when the origin has the mover's colour, the destination differs from the origin and the origin is not pinned; a checkmate names the opponent of the checking piece's colour |
| BoardModel.CheckGating | model.py:93-112 | under one check exactly the non-king moves into the check line and the moves onto the checking piece pass; under two or more exactly the king moves outside `protected` pass; with no check only a pin refuses |
| BoardModel.ClearEnPassant | model.py:115-118 | en passant changes at most the square of the last move's destination, and empties it when it does |
| BoardModel.NormalMove | model.py:114-145 | a non-king move puts the origin's piece and colour on the destination (no colour when the en-passant victim's square is the origin itself, whose colour is cleared first), empties the origin, removes the en-passant victim when a pawn moves onto an empty square in `capture_moves`, and changes no other square |
| BoardModel.CastleSquares | model.py:125-134 | the squares the king and rook are written to: orig-2 and orig-1 when orig and dest are 4 apart, orig+2 and orig+1 otherwise |
| BoardModel.Castle | model.py:124-138 | castling writes king and rook in the mover's colour, then empties origin and destination; a board of 64 entries stays one of 64 entries, and Castling gives every square |
| BoardModel.Relocate | model.py:122-145 | the piece branch: a king on a rook square castles, a king elsewhere changes nothing, any other piece moves with its colour; the board keeps 64 entries, and NormalMove, KingOffRookSquare and Castling give every square |
| BoardModel.Played | model.py:114-145 | the board after a move that passed the guards: the en-passant clearing, then Relocate; the board keeps 64 entries, and NormalMove, KingOffRookSquare, Castling, PlayedWellFormed and PlayedNeverAddsPieces state what it does |
| BoardModel.KingOffRookSquare | model.py:122-139 | a king moving to a square without a rook leaves both arrays unchanged |
| BoardModel.Castling | model.py:124-138 | a king landing on any rook square ends at orig-2 with the rook at orig-1 when the two squares are 4 apart, otherwise at orig+2 with the rook at orig+1, unless the destination is that square: the destination ends empty (a rook on orig+1 or orig+2), so the king or rook written there is lost; origin and destination end empty, and no other square changes |
| BoardModel.PlayedWellFormed | model.py:114-145 | a move past the guards keeps the board well formed |
| BoardModel.PlayedNeverAddsPieces | model.py:114-145 | a move never raises the number of occupied squares, whatever the origin holds and wherever the en-passant victim is |
| BoardModel.Model.State | model.py:20-37 | the board value is the contents of the two arrays |
| BoardModel.Model.constructor | model.py:20-57 | the initial layout, history [(35, 35)], colour 0 to move, nobody checkmated |
| BoardModel.Model.UpdateBoard | model.py:114-145 | the array writes give exactly the board Played describes |
| BoardModel.Model.MovePiece | model.py:86-153 | an ignored or pinned move changes nothing; a failed check test only records the checkmated colour; a move past the guards updates the arrays as Played says, with the last move's destination as the en-passant square, appends (orig, dest) to the history and flips the turn |
| Search.BelowTotalOrder | search.py:16-40 | the score order with the two infinities is a strict total order |
| Search.DepthZero | search.py:14-31 | at depth 0 `maxi` returns the evaluation and `mini` its negation, both with move (-1, -1) |
| Search.NoLegalMoves | search.py:16-33 | with no legal moves `maxi` returns minus infinity and `mini` plus infinity, both with move (-1, -1) |
| Search.MaxiValue | search.py:13-27 | what `maxi(depth)` returns: the evaluation with move (-1, -1) at depth 0, otherwise the fold MaxOver over all moves; DepthZero, NoLegalMoves, MaxiBest and MaxiPicksLegalMove state its properties |
| Search.MiniValue | search.py:29-43 | what `mini(depth)` returns: the negated evaluation with move (-1, -1) at depth 0, otherwise the fold MinOver over all moves; DepthZero, NoLegalMoves and MiniBest state its properties |
| Search.MaxOver | search.py:16-27 | the loop of `maxi` after the first n moves, replacing the best only by a strictly greater score; MaxOverBest states what it computes |
| Search.MinOver | search.py:32-43 | the loop of `mini` after the first n moves, replacing the best only by a strictly smaller score; MinOverBest states what it computes |
| Search.MaxOverBest | search.py:19-26 | after the first n moves the best score is at least every child's score; it is minus infinity with no move, or the score of the first child that reaches it, with that child's move |
| Search.MinOverBest | search.py:35-42 | the mirror image for `mini` |
| Search.MaxiBest | search.py:13-27 | `maxi` scores at least every child's `mini(depth-1)`, equals the first child reaching its score and reports that child's move, so ties go to the first move |
| Search.MiniBest | search.py:29-43 | `mini` scores at most every child's `maxi(depth-1)`, equals the first child reaching its score and reports that child's move |
| Search.MaxiPicksLegalMove | search.py:19-26 | when a child scores above minus infinity, `maxi` reports one of the legal moves |
| Search.GameModel.Eval | search.py:15-31 | the static evaluation of the current position |
| Search.GameModel.LegalMoves | search.py:18-34 | the legal moves of the current position, in enumeration order |
| Search.GameModel.MovePiece | search.py:21-37 | playing a move goes to the child position and records the old one |
| Search.GameModel.UnmovePiece | search.py:23-39 | taking the move back restores the recorded position and history |
| Search.MiniMax.constructor | search.py:4-7 | the search keeps the game model and the depth, which defaults to 4 |
| Search.MiniMax.Search | search.py:9-11 | `search` returns the move component of `maxi(depth)` and leaves the game where it was |
| Search.MiniMax.Maxi | search.py:13-27 | the loop returns MaxiValue of the position, and position and history are the same afterwards |
| Search.MiniMax.Mini | search.py:29-43 | the loop returns MiniValue of the position, and position and history are the same afterwards |

## Left out

- misc.py's RGB colour constants, `piece_values`, `fen_string`, `bcolors` and the console printer `print_board_string`: no operation of the modelled files reads them, and the printer is output.
- numpy index wrap-around is not modelled. For example, a pawn on its last row reads a negative index (moves.py:81-84). `Moves.PawnReadsOnBoard` requires that every index the pawn branch reads is a square; `BoardModel.CastleOnBoard` does the same for castling.
- Piece codes outside 1..6: the source raises KeyError on `offsets[piece]`. `Moves.AllowedMoves` and `MoveGenerator.AllowedMoves` require a code in 1..6.
- `MoveGenerator.AllowedMoves` reads the board object's colour array (`self._board._colors`). Here that array is a parameter.
- The `lru_cache` decorator and the `all_allowed_moves` attribute are commented out in the source and are not modelled.
- `Model.move_piece` reads lists computed elsewhere: `checks`, `pins`, `capture_moves`, `MoveGen.check_indices` and `MoveGen.protected`. Here they are parameters. Only `check_indices[0]` is read, so it is passed as a set.
- `Model.move_piece` also calls code that is not modelled:
  - `set_piece_moved` (model.py:121, 123) is treated as a call with no effect on the model;
  - the view calls (model.py:149, 153) are output;
  - `calc_attacks` (model.py:154) recomputes attack maps through a generator interface (five-argument `allowed_moves`, `reset_board_states`) that moves.py does not have. Attack maps, pins and checks are not part of this model.
- `piece != None and dest != None` (model.py:91) always holds for integer squares, and the unused `is_capture` (model.py:88) has no effect. Neither is modelled.
- Moves.PawnReadsOnBoard requires the origin's colour to be 0 or 1. On a board the model keeps well formed, a pawn always has one of these. With colour -1 the source's per-colour lists would be read from their last entry, and that is not modelled.
- Misc.Continuous2Grid and Misc.GridRoundTrip require `boardDim > 0`. This guards a division, not an index: with 0 the source raises ZeroDivisionError, and a negative board size is not meaningful.
- Search.MaxiValue, Search.MiniValue and the `Search.MiniMax` methods take the depth as a `nat`. The source only tests `depth == 0`, so on a negative depth it would search down to the leaves of the game, each of which gives the infinite score with move (-1, -1). The model does not cover negative depths.
- BoardModel.Model.MovePiece requires castling squares on the board only for a king-onto-rook move that gets past the guards; moves that are ignored, refused or stopped for checkmate carry no such requirement.
- BoardModel.Model.MovePiece requires the two arrays to be distinct objects. The source's arrays are separate numpy arrays, so aliasing does not arise.
- BoardModel.PlayedWellFormed requires that the origin is not the last move's destination. When `capture_moves` lists the pawn's empty destination and the last move's destination (the en-passant square) is the pawn's own origin, the source clears the pawn's colour before copying it. The result is not well formed, and the lemma does not cover it.
- `select_piece`, `play_move` (with its `np.random` choice), the mouse handlers and the drawing code of model.py are input, output or randomness.
- The game that `search.py` explores is reached through `generate_legal_moves`, `move_piece`, `unmove_piece` and `eval_board_shannon`, whose implementation is not part of this model. It is modelled as a finite tree: each position has an evaluation and an ordered list of (move, next position) branches.
  - `Search.GameModel.MovePiece` selects a branch by index rather than by (orig, dest).
  - The dictionary of origins with their destination sets becomes one list in enumeration order.
  - The `silent` flag is output only and is dropped.
- Scores are integers with two explicit infinities instead of floats. A float evaluation, NaN and rounding are not modelled.
- Alpha-beta pruning, FEN parsing, unmaking moves on the real board, perft and the UI files are not modelled. The modelled files do not implement them, or they are input and output.

## Findings

| source | as written | input that shows it | evidently intended | confidence | as-written member | corrected member |
|---|---|---|---|---|---|---|
| moves.py:97 | the right-hand pawn capture is guarded by the edge test of the left-hand capture step, `pawn_captures64[c][0]` | colour-0 pawn on 48 (row 6, column 0), square 39 of colour 1: 48 - 9 = 39 is offered, although it sits on row 4 at the far edge | guard it by `pawn_captures64[c][1]`, so that only the diagonal neighbour one row forward can be captured | not executed | Moves.RightCaptureWrapsAround | Moves.PawnDestinationsIntendedComplete |
| moves.py:97 | the same guard, seen from the other edge: the right-hand capture waits for the left-hand step to stay on the board | colour-0 pawn on 55 (row 6, column 7), square 46 of colour 1: 46 is not offered, because the left-hand step from 55 leaves the board | the same correction; each diagonal neighbour one row forward that holds the opponent colour is offered | not executed | Moves.HFileCaptureMissed | Moves.PawnDestinationsIntendedComplete |
| moves.py:89-91 | the double push only checks its target square | colour-0 pawn on 48, a piece on 40, 32 empty: 32 is offered | also require the square passed (`orig + pawn_moves[c][0]`) to be empty, as for the single push | not executed | Moves.DoublePushJumpsBlocker | Moves.PawnDestinationsIntendedSound |

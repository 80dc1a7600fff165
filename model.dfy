/** The board model of model.py: the two 64-entry arrays of piece codes and
    colours, the move history, whose turn it is, and `move_piece`, the
    in-place update that plays one move after its guards. */
module BoardModel {
  import opened Misc

  /** A value snapshot of the two arrays. */
  datatype Board = Board(pieces: seq<int>, colors: seq<int>)

  /** Both arrays have 64 entries, every entry is a piece code or -1 and a
      colour or -1, and a square holds a piece exactly when it holds a
      colour. */
  predicate WellFormed(b: Board) {
    && |b.pieces| == 64 && |b.colors| == 64
    && forall s :: 0 <= s < 64 ==>
         && (b.pieces[s] == Empty || Pawn <= b.pieces[s] <= King)
         && (b.colors[s] == NoColor || b.colors[s] == White || b.colors[s] == Black)
         && (b.pieces[s] < 0 <==> b.colors[s] < 0)
  }

  // -------------------------------------------------------- initial layout

  /** The back rank, from square 0 (or 56) to square 7 (or 63). */
  const BackRank: seq<int> := [Rook, Knight, Bishop, Queen, King, Bishop, Knight, Rook]
  const PawnRank: seq<int> := [Pawn, Pawn, Pawn, Pawn, Pawn, Pawn, Pawn, Pawn]
  const EmptyRank: seq<int> := [-1, -1, -1, -1, -1, -1, -1, -1]

  /** `_pieces` as the constructor sets it up, row by row. */
  const InitialPieces: seq<int> :=
    BackRank + PawnRank + EmptyRank + EmptyRank + EmptyRank + EmptyRank + PawnRank + BackRank

  /** `_colors` as the constructor sets it up: colour 1 on rows 0 and 1,
      colour 0 on rows 6 and 7. */
  const InitialColors: seq<int> :=
    [1, 1, 1, 1, 1, 1, 1, 1] + [1, 1, 1, 1, 1, 1, 1, 1] + EmptyRank + EmptyRank + EmptyRank + EmptyRank
    + [0, 0, 0, 0, 0, 0, 0, 0] + [0, 0, 0, 0, 0, 0, 0, 0]

  /** The initial layout square by square: the back ranks on rows 0 and 7,
      pawns on rows 1 and 6, the middle empty, colour 1 on top and colour 0
      below. */
  lemma InitialLayout(s: int)
    requires IsSquare(s)
    ensures |InitialPieces| == 64 && |InitialColors| == 64
    ensures InitialPieces[s] == if s < 8 then BackRank[s] else if 56 <= s then BackRank[s - 56]
                                else if s < 16 || 48 <= s then Pawn else Empty
    ensures InitialColors[s] == if s < 16 then Black else if 48 <= s then White else NoColor
  {
    InitialPiecesAt(s);
    InitialColorsAt(s);
  }

  /** The piece half of InitialLayout. */
  lemma InitialPiecesAt(s: int)
    requires IsSquare(s)
    ensures |InitialPieces| == 64
    ensures InitialPieces[s] == if s < 8 then BackRank[s] else if 56 <= s then BackRank[s - 56]
                                else if s < 16 || 48 <= s then Pawn else Empty
  {
    if s < 32 {
    } else {
    }
  }

  /** The colour half of InitialLayout. */
  lemma InitialColorsAt(s: int)
    requires IsSquare(s)
    ensures |InitialColors| == 64
    ensures InitialColors[s] == if s < 16 then Black else if 48 <= s then White else NoColor
  {
    if s < 32 {
    } else {
    }
  }

  /** The initial board is well formed, and each colour has its king on the
      fifth square of its back rank. */
  lemma InitialBoardWellFormed()
    ensures WellFormed(Board(InitialPieces, InitialColors))
    ensures InitialPieces[4] == King && InitialColors[4] == Black
    ensures InitialPieces[60] == King && InitialColors[60] == White
  {
    forall s | 0 <= s < 64
      ensures && (InitialPieces[s] == Empty || Pawn <= InitialPieces[s] <= King)
              && (InitialColors[s] == NoColor || InitialColors[s] == White || InitialColors[s] == Black)
              && (InitialPieces[s] < 0 <==> InitialColors[s] < 0)
    {
      InitialLayout(s);
    }
    InitialLayout(4);
    InitialLayout(60);
  }

  // ------------------------------------------------------------ the guards

  /** How `move_piece` ends before touching the board: the move is ignored
      (not the mover's turn, or no move at all), refused for a pin, ends the
      game for colour `color`, or proceeds. */
  datatype Gate = Ignored | Pinned | Checkmated(color: int) | Proceeds

  /** The guards of `move_piece`, in the source's order. With one check the
      move must be a non-king move into `checkIndices0` (the squares between
      the checking piece and the king) or a move onto the checking piece;
      with two or more checks only a king move to a square outside `protected` passes. A failed
      check test names the opponent of the checking piece's colour. */
  function GateOf(b: Board, turn: int, orig: int, dest: int, checks: seq<int>, pins: seq<seq<int>>,
                  checkIndices0: set<int>, protected: set<int>): (g: Gate)
    requires |b.pieces| == 64 && |b.colors| == 64 && IsSquare(orig)
    requires |checks| > 0 ==> IsSquare(checks[0])
    requires turn == White || turn == Black
    requires |pins| == 2
    ensures g == Proceeds ==> b.colors[orig] == turn && dest != orig && orig !in pins[OpponentColor(turn)]
    ensures g.Checkmated? ==> |checks| > 0 && g.color == OpponentColor(b.colors[checks[0]])
  {
    var piece := b.pieces[orig];
    if b.colors[orig] != turn then Ignored
    else if dest == orig then Ignored
    else if |checks| == 1 && !((piece != King && dest in checkIndices0) || dest == checks[0]) then
      Checkmated(OpponentColor(b.colors[checks[0]]))
    else if |checks| >= 2 && (piece != King || dest in protected) then
      Checkmated(OpponentColor(b.colors[checks[0]]))
    else if orig in pins[OpponentColor(turn)] then Pinned
    else Proceeds
  }

  /** The check gating in full: under one check exactly the blocking
      non-king moves and the moves onto the checking piece get past it; under two
      or more exactly the king moves outside `protected`. */
  lemma CheckGating(b: Board, turn: int, orig: int, dest: int, checks: seq<int>, pins: seq<seq<int>>,
                    checkIndices0: set<int>, protected: set<int>)
    requires |b.pieces| == 64 && |b.colors| == 64 && IsSquare(orig)
    requires |checks| > 0 ==> IsSquare(checks[0])
    requires turn == White || turn == Black
    requires |pins| == 2
    requires b.colors[orig] == turn && dest != orig
    ensures var g := GateOf(b, turn, orig, dest, checks, pins, checkIndices0, protected);
      && (|checks| == 1 ==>
            (!g.Checkmated? <==> (b.pieces[orig] != King && dest in checkIndices0) || dest == checks[0]))
      && (|checks| >= 2 ==> (!g.Checkmated? <==> b.pieces[orig] == King && dest !in protected))
      && (|checks| == 0 ==> (g == Proceeds <==> orig !in pins[OpponentColor(turn)]))
  {
  }

  // ---------------------------------------------------- the board update

  /** A pawn moving onto an empty square listed in `captureMoves` takes the
      piece on `epSquare` (the destination of the last move). */
  function ClearEnPassant(b: Board, orig: int, dest: int, captureMoves: set<int>, epSquare: int): (r: Board)
    requires |b.pieces| == 64 && |b.colors| == 64 && IsSquare(orig) && IsSquare(dest) && IsSquare(epSquare)
    ensures |r.pieces| == 64 && |r.colors| == 64
    ensures forall s :: 0 <= s < 64 && s != epSquare ==> r.pieces[s] == b.pieces[s] && r.colors[s] == b.colors[s]
    ensures r != b ==> r.pieces[epSquare] == Empty && r.colors[epSquare] == NoColor
  {
    if b.pieces[orig] == Pawn && dest in captureMoves && b.pieces[dest] < 0 then
      Board(b.pieces[epSquare := Empty], b.colors[epSquare := NoColor])
    else b
  }

  /** The squares castling writes the king and the rook to: two and one to
      the left when the king lands four squares away, two and one to the
      right otherwise. */
  function CastleSquares(orig: int, dest: int): (kr: (int, int))
  {
    if orig - dest == 4 || dest - orig == 4 then (orig - 2, orig - 1) else (orig + 2, orig + 1)
  }

  /** The source's castling indexes stay on the board. */
  predicate CastleOnBoard(orig: int, dest: int) {
    IsSquare(CastleSquares(orig, dest).0) && IsSquare(CastleSquares(orig, dest).1)
  }

  /** Castling: king and rook written to CastleSquares in the mover's colour,
      then the origin and the destination emptied, in that order. */
  function Castle(b: Board, orig: int, dest: int): (r: Board)
    requires |b.pieces| == 64 && |b.colors| == 64 && IsSquare(orig) && IsSquare(dest) && CastleOnBoard(orig, dest)
    ensures |r.pieces| == 64 && |r.colors| == 64
  {
    var (k, rk) := CastleSquares(orig, dest);
    var c := b.colors[orig];
    Board(b.pieces[k := King][rk := Rook][orig := Empty][dest := Empty],
          b.colors[k := c][rk := c][orig := NoColor][dest := NoColor])
  }

  /** The piece branch of `move_piece`: a king lands on a rook square by
      castling and on any other square not at all; every other piece moves
      with its colour and leaves its origin empty. */
  function Relocate(b: Board, piece: int, orig: int, dest: int): (r: Board)
    requires |b.pieces| == 64 && |b.colors| == 64 && IsSquare(orig) && IsSquare(dest)
    requires piece == King && b.pieces[dest] == Rook ==> CastleOnBoard(orig, dest)
    ensures |r.pieces| == 64 && |r.colors| == 64
  {
    if piece == King then
      if b.pieces[dest] == Rook then Castle(b, orig, dest) else b
    else
      Board(b.pieces[dest := piece][orig := Empty], b.colors[dest := b.colors[orig]][orig := NoColor])
  }

  /** The board after a move that got past the guards. */
  function Played(b: Board, orig: int, dest: int, captureMoves: set<int>, epSquare: int): (r: Board)
    requires |b.pieces| == 64 && |b.colors| == 64 && IsSquare(orig) && IsSquare(dest) && IsSquare(epSquare)
    requires b.pieces[orig] == King && b.pieces[dest] == Rook ==> CastleOnBoard(orig, dest)
    ensures |r.pieces| == 64 && |r.colors| == 64
  {
    Relocate(ClearEnPassant(b, orig, dest, captureMoves, epSquare), b.pieces[orig], orig, dest)
  }

  /** A move by anything but a king: the destination takes the piece and
      colour of the origin, the origin is emptied, the en-passant victim is
      removed when the capture condition holds, and no other square
      changes. When the victim's square is the origin itself, its colour is
      cleared before it is copied, so the destination gets the piece with
      no colour. */
  lemma NormalMove(b: Board, orig: int, dest: int, captureMoves: set<int>, epSquare: int)
    requires |b.pieces| == 64 && |b.colors| == 64 && IsSquare(orig) && IsSquare(dest) && IsSquare(epSquare)
    requires orig != dest && b.pieces[orig] != King
    ensures var r := Played(b, orig, dest, captureMoves, epSquare);
      var takes := b.pieces[orig] == Pawn && dest in captureMoves && b.pieces[dest] < 0;
      && r.pieces[dest] == b.pieces[orig]
      && r.colors[dest] == (if takes && epSquare == orig then NoColor else b.colors[orig])
      && r.pieces[orig] == Empty && r.colors[orig] == NoColor
      && (takes && epSquare != dest ==> r.pieces[epSquare] == Empty && r.colors[epSquare] == NoColor)
      && (forall s :: 0 <= s < 64 && s != orig && s != dest && (s != epSquare || !takes) ==>
            r.pieces[s] == b.pieces[s] && r.colors[s] == b.colors[s])
  {
  }

  /** A king moving onto a square without a rook leaves the board as it
      was. */
  lemma KingOffRookSquare(b: Board, orig: int, dest: int, captureMoves: set<int>, epSquare: int)
    requires |b.pieces| == 64 && |b.colors| == 64 && IsSquare(orig) && IsSquare(dest) && IsSquare(epSquare)
    requires b.pieces[orig] == King && b.pieces[dest] != Rook
    ensures Played(b, orig, dest, captureMoves, epSquare) == b
  {
  }

  /** A king moving onto a rook square, whatever the rook's colour: in the
      long case (four squares apart) the king ends on orig-2 and the rook on
      orig-1, otherwise on orig+2 and orig+1 unless the destination is one of
      those; origin and destination end empty, the two new pieces carry the
      king's colour, and no other square changes. */
  lemma Castling(b: Board, orig: int, dest: int, captureMoves: set<int>, epSquare: int)
    requires |b.pieces| == 64 && |b.colors| == 64 && IsSquare(orig) && IsSquare(dest) && IsSquare(epSquare)
    requires b.pieces[orig] == King && b.pieces[dest] == Rook && CastleOnBoard(orig, dest)
    ensures var r := Played(b, orig, dest, captureMoves, epSquare);
      var long := orig - dest == 4 || dest - orig == 4;
      var k := if long then orig - 2 else orig + 2;
      var rk := if long then orig - 1 else orig + 1;
      && r.pieces[orig] == Empty && r.colors[orig] == NoColor
      && r.pieces[dest] == Empty && r.colors[dest] == NoColor
      && (k != dest ==> r.pieces[k] == King && r.colors[k] == b.colors[orig])
      && (rk != dest ==> r.pieces[rk] == Rook && r.colors[rk] == b.colors[orig])
      && (forall s :: 0 <= s < 64 && s != orig && s != dest && s != k && s != rk ==>
            r.pieces[s] == b.pieces[s] && r.colors[s] == b.colors[s])
  {
    assert b.pieces[orig] != b.pieces[dest];
  }

  /** A move that gets past the guards keeps the board well formed. */
  lemma PlayedWellFormed(b: Board, orig: int, dest: int, captureMoves: set<int>, epSquare: int)
    requires WellFormed(b) && IsSquare(orig) && IsSquare(dest) && IsSquare(epSquare) && orig != epSquare
    requires b.colors[orig] == White || b.colors[orig] == Black
    requires b.pieces[orig] == King && b.pieces[dest] == Rook ==> CastleOnBoard(orig, dest)
    ensures WellFormed(Played(b, orig, dest, captureMoves, epSquare))
  {
    var e := ClearEnPassant(b, orig, dest, captureMoves, epSquare);
    assert WellFormed(e);
    var piece := b.pieces[orig];
    if piece == King && e.pieces[dest] == Rook {
      assert WellFormed(Castle(e, orig, dest));
    } else if piece != King {
      var r := Relocate(e, piece, orig, dest);
      forall s | 0 <= s < 64
        ensures && (r.pieces[s] == Empty || Pawn <= r.pieces[s] <= King)
                && (r.colors[s] == NoColor || r.colors[s] == White || r.colors[s] == Black)
                && (r.pieces[s] < 0 <==> r.colors[s] < 0)
      {
        if s == orig {
        } else if s == dest {
          assert r.pieces[s] == piece && r.colors[s] == e.colors[orig];
        }
      }
    }
  }

  // ---------------------------------------------------- counting pieces

  /** The number of occupied squares among the first `n` entries. */
  function Occupied(p: seq<int>, n: nat): (k: nat)
    requires n <= |p|
    ensures k <= n
  {
    if n == 0 then 0 else Occupied(p, n - 1) + (if p[n - 1] >= 0 then 1 else 0)
  }

  /** Writing one entry changes the count by what was there and what comes
      in. */
  lemma {:induction false} OccupiedUpdate(p: seq<int>, n: nat, i: int, v: int)
    requires n <= |p| && 0 <= i < |p|
    ensures Occupied(p[i := v], n) + (if i < n && p[i] >= 0 then 1 else 0)
         == Occupied(p, n) + (if i < n && v >= 0 then 1 else 0)
  {
    if n > 0 {
      OccupiedUpdate(p, n - 1, i, v);
    }
  }

  /** No move adds a piece to the board: the number of occupied squares
      never rises, whatever the origin holds. */
  lemma PlayedNeverAddsPieces(b: Board, orig: int, dest: int, captureMoves: set<int>, epSquare: int)
    requires |b.pieces| == 64 && |b.colors| == 64 && IsSquare(orig) && IsSquare(dest) && IsSquare(epSquare)
    requires b.pieces[orig] == King && b.pieces[dest] == Rook ==> CastleOnBoard(orig, dest)
    ensures Occupied(Played(b, orig, dest, captureMoves, epSquare).pieces, 64) <= Occupied(b.pieces, 64)
  {
    var e := ClearEnPassant(b, orig, dest, captureMoves, epSquare);
    if e != b {
      OccupiedUpdate(b.pieces, 64, epSquare, Empty);
    }
    var piece := b.pieces[orig];
    var p := e.pieces;
    if piece == King {
      assert p[orig] == King;
      if p[dest] == Rook {
        var (k, rk) := CastleSquares(orig, dest);
        var p1 := p[k := King];
        var p2 := p1[rk := Rook];
        var p3 := p2[orig := Empty];
        OccupiedUpdate(p, 64, k, King);
        OccupiedUpdate(p1, 64, rk, Rook);
        OccupiedUpdate(p2, 64, orig, Empty);
        OccupiedUpdate(p3, 64, dest, Empty);
        assert p2[orig] >= 0 && p3[dest] >= 0;
      }
    } else if orig != dest {
      var p1 := p[dest := piece];
      OccupiedUpdate(p, 64, dest, piece);
      OccupiedUpdate(p1, 64, orig, Empty);
    } else {
      OccupiedUpdate(p, 64, dest, piece);
      OccupiedUpdate(p[dest := piece], 64, orig, Empty);
    }
  }

  // ------------------------------------------------------------ the class

  /** The board state `move_piece` works on. The check, pin and capture lists
      it reads are computed elsewhere and are parameters here. */
  class Model {
    var pieces: array<int>
    var colors: array<int>
    /** `_last_moves`: every move played, as (origin, destination). */
    var lastMoves: seq<(int, int)>
    var playerTurn: int
    var checkmatedColor: int

    ghost predicate Valid()
      reads this, pieces, colors
    {
      && pieces != colors
      && pieces.Length == 64 && colors.Length == 64
      && |lastMoves| >= 1
      && (forall m :: m in lastMoves ==> IsSquare(m.0) && IsSquare(m.1))
      && (playerTurn == White || playerTurn == Black)
    }

    /** The board as a value. */
    function State(): (b: Board)
      reads this, pieces, colors
      ensures b.pieces == pieces[..] && b.colors == colors[..]
    {
      Board(pieces[..], colors[..])
    }

    /** The model the constructor sets up: the initial layout, a history
        holding the placeholder move (35, 35), colour 0 to move and nobody
        checkmated. */
    constructor ()
      ensures Valid() && fresh(pieces) && fresh(colors)
      ensures pieces[..] == InitialPieces && colors[..] == InitialColors
      ensures lastMoves == [(35, 35)] && playerTurn == White && checkmatedColor == NoColor
    {
      InitialLayout(0);
      pieces := new int[64](i requires 0 <= i < 64 => InitialPieces[i]);
      colors := new int[64](i requires 0 <= i < 64 => InitialColors[i]);
      lastMoves := [(35, 35)];
      playerTurn := White;
      checkmatedColor := NoColor;
      new;
      assert pieces[..] == InitialPieces;
      assert colors[..] == InitialColors;
    }

    /** The board writes of `move_piece` once the guards are passed: the
        en-passant removal, then castling or the plain move. */
    method UpdateBoard(orig: int, dest: int, captureMoves: set<int>, epSquare: int)
      requires pieces.Length == 64 && colors.Length == 64 && pieces != colors
      requires IsSquare(orig) && IsSquare(dest) && IsSquare(epSquare)
      requires pieces[orig] == King && pieces[dest] == Rook ==> CastleOnBoard(orig, dest)
      modifies pieces, colors
      ensures State() == Played(old(State()), orig, dest, captureMoves, epSquare)
    {
      ghost var b := State();
      var piece := pieces[orig];
      if piece == Pawn && dest in captureMoves && pieces[dest] < 0 {
        pieces[epSquare] := Empty;
        colors[epSquare] := NoColor;
      }
      ghost var e := ClearEnPassant(b, orig, dest, captureMoves, epSquare);
      assert State() == e;
      if piece == King {
        if pieces[dest] == Rook {
          var (k, rk) := CastleSquares(orig, dest);
          pieces[k] := King;
          pieces[rk] := Rook;
          colors[k] := colors[orig];
          colors[rk] := colors[orig];
          colors[orig] := NoColor;
          colors[dest] := NoColor;
          pieces[orig] := Empty;
          pieces[dest] := Empty;
        }
      } else {
        pieces[dest] := piece;
        pieces[orig] := Empty;
        colors[dest] := colors[orig];
        colors[orig] := NoColor;
      }
      assert State() == Relocate(e, piece, orig, dest);
    }

    /** `Model.move_piece`. The guards (GateOf) may ignore the move, refuse
        it for a pin, or record a checkmate and stop. A move that passes
        them updates the board in place as Played says, appends (orig, dest)
        to the history and hands the turn to the other colour; this holds
        also for a king landing on a square without a rook, which changes
        neither array. */
    method MovePiece(orig: int, dest: int, checks: seq<int>, pins: seq<seq<int>>, captureMoves: set<int>,
                     checkIndices0: set<int>, protected: set<int>)
      requires Valid() && IsSquare(orig) && IsSquare(dest)
      requires |checks| > 0 ==> IsSquare(checks[0])
      requires |pins| == 2
      requires (GateOf(State(), playerTurn, orig, dest, checks, pins, checkIndices0, protected) == Proceeds
                && pieces[orig] == King && pieces[dest] == Rook) ==> CastleOnBoard(orig, dest)
      modifies this, pieces, colors
      ensures Valid() && pieces == old(pieces) && colors == old(colors)
      ensures var g := GateOf(old(State()), old(playerTurn), orig, dest, checks, pins, checkIndices0, protected);
        && (g == Ignored || g == Pinned ==>
              && pieces[..] == old(pieces[..]) && colors[..] == old(colors[..])
              && lastMoves == old(lastMoves) && playerTurn == old(playerTurn) && checkmatedColor == old(checkmatedColor))
        && (g.Checkmated? ==>
              && pieces[..] == old(pieces[..]) && colors[..] == old(colors[..])
              && lastMoves == old(lastMoves) && playerTurn == old(playerTurn) && checkmatedColor == g.color)
        && (g == Proceeds ==>
              && State() == Played(old(State()), orig, dest, captureMoves, old(lastMoves[|lastMoves| - 1].1))
              && lastMoves == old(lastMoves) + [(orig, dest)]
              && playerTurn == OpponentColor(old(playerTurn))
              && checkmatedColor == old(checkmatedColor))
    {
      ghost var b := State();
      ghost var g := GateOf(b, playerTurn, orig, dest, checks, pins, checkIndices0, protected);
      var piece := pieces[orig];
      if colors[orig] != playerTurn {
        return;
      }
      if dest == orig {
        return;
      }
      if |checks| > 0 {
        if |checks| == 1 {
          if piece != King && dest in checkIndices0 {
            // a piece moves between the checking piece and the king
          } else if dest == checks[0] {
            // the checking piece is captured
          } else {
            checkmatedColor := OpponentColor(colors[checks[0]]);
            return;
          }
        } else {
          if piece != King || dest in protected {
            checkmatedColor := OpponentColor(colors[checks[0]]);
            return;
          }
        }
      }
      if orig in pins[OpponentColor(playerTurn)] {
        return;
      }
      assert g == Proceeds;
      var epSquare := lastMoves[|lastMoves| - 1].1;
      assert lastMoves[|lastMoves| - 1] in lastMoves;
      UpdateBoard(orig, dest, captureMoves, epSquare);
      lastMoves := lastMoves + [(orig, dest)];
      playerTurn := OpponentColor(playerTurn);
    }
  }
}

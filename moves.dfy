/** Move generation of moves.py: the 10x12 mailbox geometry and the
    pseudo-legal destination generator `allowed_moves`. */
module Moves {
  import opened Misc

  // ------------------------------------------------------------- geometry

  /** `mailbox` as the source writes it: the 10x12 frame of off-board cells
      (-1), two deep above and below and one deep at the sides, around the
      8x8 board. The table is written row by row. */
  const MailboxTable: seq<int> :=
    [ -1,  -1,  -1,  -1,  -1,  -1,  -1,  -1,  -1,  -1] +
    [ -1,  -1,  -1,  -1,  -1,  -1,  -1,  -1,  -1,  -1] +
    [ -1,   0,   1,   2,   3,   4,   5,   6,   7,  -1] +
    [ -1,   8,   9,  10,  11,  12,  13,  14,  15,  -1] +
    [ -1,  16,  17,  18,  19,  20,  21,  22,  23,  -1] +
    [ -1,  24,  25,  26,  27,  28,  29,  30,  31,  -1] +
    [ -1,  32,  33,  34,  35,  36,  37,  38,  39,  -1] +
    [ -1,  40,  41,  42,  43,  44,  45,  46,  47,  -1] +
    [ -1,  48,  49,  50,  51,  52,  53,  54,  55,  -1] +
    [ -1,  56,  57,  58,  59,  60,  61,  62,  63,  -1] +
    [ -1,  -1,  -1,  -1,  -1,  -1,  -1,  -1,  -1,  -1] +
    [ -1,  -1,  -1,  -1,  -1,  -1,  -1,  -1,  -1,  -1]

  /** `mailbox64` as the source writes it: the cell of each of the 64 squares. */
  const Mailbox64Table: seq<int> :=
    [ 21,  22,  23,  24,  25,  26,  27,  28] +
    [ 31,  32,  33,  34,  35,  36,  37,  38] +
    [ 41,  42,  43,  44,  45,  46,  47,  48] +
    [ 51,  52,  53,  54,  55,  56,  57,  58] +
    [ 61,  62,  63,  64,  65,  66,  67,  68] +
    [ 71,  72,  73,  74,  75,  76,  77,  78] +
    [ 81,  82,  83,  84,  85,  86,  87,  88] +
    [ 91,  92,  93,  94,  95,  96,  97,  98]

  /** Closed form of `mailbox64`: the cell of square `s` in the 10-wide frame. */
  function CellOf(s: int): int {
    21 + (s / 8) * 10 + s % 8
  }

  /** Closed form of `mailbox`: the square in cell `x`, or -1 for a frame cell. */
  function SquareIn(x: int): int {
    if 2 <= x / 10 <= 9 && 1 <= x % 10 <= 8 then (x / 10 - 2) * 8 + x % 10 - 1 else -1
  }

  /** The two tables the walks read, built from their closed forms;
      MailboxTables shows they are the source's tables. */
  const Mailbox: seq<int> := seq(120, x => SquareIn(x))
  const Mailbox64: seq<int> := seq(64, s => CellOf(s))

  /** The mailbox table agrees with its closed form on the cells of the
      upper half, */
  lemma MailboxCellUpper(x: int)
    requires 0 <= x < 60
    ensures |MailboxTable| == 120 && MailboxTable[x] == SquareIn(x)
  {
    if x == 0 {} else if x == 1 {} else if x == 2 {} else if x == 3 {} else if x == 4 {} else if x == 5 {} else if x == 6 {} else if x == 7 {} else if x == 8 {} else if x == 9 {} else
    if x == 10 {} else if x == 11 {} else if x == 12 {} else if x == 13 {} else if x == 14 {} else if x == 15 {} else if x == 16 {} else if x == 17 {} else if x == 18 {} else if x == 19 {} else
    if x == 20 {} else if x == 21 {} else if x == 22 {} else if x == 23 {} else if x == 24 {} else if x == 25 {} else if x == 26 {} else if x == 27 {} else if x == 28 {} else if x == 29 {} else
    if x == 30 {} else if x == 31 {} else if x == 32 {} else if x == 33 {} else if x == 34 {} else if x == 35 {} else if x == 36 {} else if x == 37 {} else if x == 38 {} else if x == 39 {} else
    if x == 40 {} else if x == 41 {} else if x == 42 {} else if x == 43 {} else if x == 44 {} else if x == 45 {} else if x == 46 {} else if x == 47 {} else if x == 48 {} else if x == 49 {} else
    if x == 50 {} else if x == 51 {} else if x == 52 {} else if x == 53 {} else if x == 54 {} else if x == 55 {} else if x == 56 {} else if x == 57 {} else if x == 58 {} else {}
  }

  /** and on the lower half. */
  lemma MailboxCellLower(x: int)
    requires 60 <= x < 120
    ensures |MailboxTable| == 120 && MailboxTable[x] == SquareIn(x)
  {
    if x == 60 {} else if x == 61 {} else if x == 62 {} else if x == 63 {} else if x == 64 {} else if x == 65 {} else if x == 66 {} else if x == 67 {} else if x == 68 {} else if x == 69 {} else
    if x == 70 {} else if x == 71 {} else if x == 72 {} else if x == 73 {} else if x == 74 {} else if x == 75 {} else if x == 76 {} else if x == 77 {} else if x == 78 {} else if x == 79 {} else
    if x == 80 {} else if x == 81 {} else if x == 82 {} else if x == 83 {} else if x == 84 {} else if x == 85 {} else if x == 86 {} else if x == 87 {} else if x == 88 {} else if x == 89 {} else
    if x == 90 {} else if x == 91 {} else if x == 92 {} else if x == 93 {} else if x == 94 {} else if x == 95 {} else if x == 96 {} else if x == 97 {} else if x == 98 {} else if x == 99 {} else
    if x == 100 {} else if x == 101 {} else if x == 102 {} else if x == 103 {} else if x == 104 {} else if x == 105 {} else if x == 106 {} else if x == 107 {} else if x == 108 {} else if x == 109 {} else
    if x == 110 {} else if x == 111 {} else if x == 112 {} else if x == 113 {} else if x == 114 {} else if x == 115 {} else if x == 116 {} else if x == 117 {} else if x == 118 {} else {}
  }

  /** The square table agrees with its closed form, square by square. */
  lemma Mailbox64Cell(s: int)
    requires 0 <= s < 64
    ensures |Mailbox64Table| == 64 && Mailbox64Table[s] == CellOf(s)
  {
    if s == 0 {} else if s == 1 {} else if s == 2 {} else if s == 3 {} else if s == 4 {} else if s == 5 {} else if s == 6 {} else if s == 7 {} else if s == 8 {} else if s == 9 {} else
    if s == 10 {} else if s == 11 {} else if s == 12 {} else if s == 13 {} else if s == 14 {} else if s == 15 {} else if s == 16 {} else if s == 17 {} else if s == 18 {} else if s == 19 {} else
    if s == 20 {} else if s == 21 {} else if s == 22 {} else if s == 23 {} else if s == 24 {} else if s == 25 {} else if s == 26 {} else if s == 27 {} else if s == 28 {} else if s == 29 {} else
    if s == 30 {} else if s == 31 {} else if s == 32 {} else if s == 33 {} else if s == 34 {} else if s == 35 {} else if s == 36 {} else if s == 37 {} else if s == 38 {} else if s == 39 {} else
    if s == 40 {} else if s == 41 {} else if s == 42 {} else if s == 43 {} else if s == 44 {} else if s == 45 {} else if s == 46 {} else if s == 47 {} else if s == 48 {} else if s == 49 {} else
    if s == 50 {} else if s == 51 {} else if s == 52 {} else if s == 53 {} else if s == 54 {} else if s == 55 {} else if s == 56 {} else if s == 57 {} else if s == 58 {} else if s == 59 {} else
    if s == 60 {} else if s == 61 {} else if s == 62 {} else {}
  }

  /** The tables the walks read are the source's tables. */
  lemma MailboxTables()
    ensures Mailbox == MailboxTable && Mailbox64 == Mailbox64Table
  {
    MailboxCellUpper(0);
    Mailbox64Cell(0);
    forall x | 0 <= x < 120 ensures Mailbox[x] == MailboxTable[x] {
      if x < 60 {
        MailboxCellUpper(x);
      } else {
        MailboxCellLower(x);
      }
    }
    forall s | 0 <= s < 64 ensures Mailbox64[s] == Mailbox64Table[s] {
      Mailbox64Cell(s);
    }
  }

  /** Every square's cell holds that square, and a cell holding a square is
      that square's cell, so every cell no square maps to is off the board. */
  lemma MailboxRoundTrip()
    ensures |MailboxTable| == 120 && |Mailbox64Table| == 64
    ensures forall s :: 0 <= s < 64 ==> 0 <= Mailbox64Table[s] < 120 && MailboxTable[Mailbox64Table[s]] == s
    ensures forall x :: 0 <= x < 120 && MailboxTable[x] != -1 ==> 0 <= MailboxTable[x] < 64 && Mailbox64Table[MailboxTable[x]] == x
  {
    MailboxTables();
    forall s | 0 <= s < 64 ensures 0 <= Mailbox64[s] < 120 && Mailbox[Mailbox64[s]] == s {
      SquareRoundTrip(s);
    }
    forall x | 0 <= x < 120 && Mailbox[x] != -1 ensures 0 <= Mailbox[x] < 64 && Mailbox64[Mailbox[x]] == x {
      CellRoundTrip(x);
    }
  }

  /** The closed forms invert each other on the squares. */
  lemma SquareRoundTrip(s: int)
    requires 0 <= s < 64
    ensures 21 <= CellOf(s) <= 98 && SquareIn(CellOf(s)) == s
  {
    var row, col := s / 8, s % 8;
    assert CellOf(s) == (row + 2) * 10 + col + 1;
    DivModTen(row + 2, col + 1);
  }

  /** The closed forms invert each other on the cells that hold a square. */
  lemma CellRoundTrip(x: int)
    ensures SquareIn(x) == -1 || (0 <= SquareIn(x) < 64 && CellOf(SquareIn(x)) == x)
  {
    if SquareIn(x) != -1 {
      var row, col := x / 10, x % 10;
      DivModEight(row - 2, col - 1);
    }
  }

  lemma DivModTen(q: int, m: int)
    requires 0 <= m < 10
    ensures (q * 10 + m) / 10 == q && (q * 10 + m) % 10 == m
  {
  }

  lemma DivModEight(q: int, m: int)
    requires 0 <= m < 8
    ensures (q * 8 + m) / 8 == q && (q * 8 + m) % 8 == m
  {
  }

  /** The two board arrays, each with one entry per square. */
  predicate IsBoard(pieces: seq<int>, colors: seq<int>) {
    |pieces| == 64 && |colors| == 64
  }

  /** A mailbox step of a piece: never zero and never more than two rows. */
  predicate IsRayStep(d: int) {
    -21 <= d <= 21 && d != 0
  }

  /** The square one mailbox step of `d` away from `sq`, or -1 when the step
      leaves the board (`mailbox[mailbox64[sq] + d]`, see StepIsTableLookup). */
  function Step(sq: int, d: int): (r: int)
    requires IsSquare(sq) && -21 <= d <= 21
    ensures r == -1 || IsSquare(r)
    ensures r != -1 ==> CellOf(r) == CellOf(sq) + d
    ensures 21 <= CellOf(sq) <= 98
  {
    SquareRoundTrip(sq);
    CellRoundTrip(CellOf(sq) + d);
    SquareIn(CellOf(sq) + d)
  }

  /** Step is the lookup the source does in its two tables. */
  lemma StepIsTableLookup(sq: int, d: int)
    requires IsSquare(sq) && -21 <= d <= 21
    ensures 0 <= Mailbox64[sq] + d < 120 && Step(sq, d) == Mailbox[Mailbox64[sq] + d]
  {
    SquareRoundTrip(sq);
  }

  /** The square reached after `k` steps of `d` from `sq`, or -1 once a step
      has left the board. */
  function Walk(sq: int, d: int, k: nat): (r: int)
    requires IsSquare(sq) && -21 <= d <= 21
    ensures r == -1 || IsSquare(r)
    decreases k
  {
    if k == 0 then sq
    else
      var next := Step(sq, d);
      if next == -1 then -1 else Walk(next, d, k - 1)
  }

  // ------------------------------------------------------ piece tables

  /** Per piece code: how many step directions it has, and the directions
      (the unused entries are zero). */
  const Offsets: map<int, (nat, seq<int>)> := map[
    Pawn := (0, [0, 0, 0, 0, 0, 0, 0, 0]),
    Knight := (8, [-21, -19, -12, -8, 8, 12, 19, 21]),
    Bishop := (4, [-11, -9, 9, 11, 0, 0, 0, 0]),
    Rook := (4, [-10, -1, 1, 10, 0, 0, 0, 0]),
    Queen := (8, [-11, -10, -9, -1, 1, 9, 10, 11]),
    King := (8, [-11, -10, -9, -1, 1, 9, 10, 11])]

  /** Whether a piece code keeps walking over empty squares, indexed by code
      (entry 0 stands for an empty square). */
  const Slide: seq<bool> := [false, false, false, true, true, true, false]

  /** Per colour: the range of squares of the pawns' starting row. */
  const FirstRows: seq<seq<int>> := [[48, 55], [8, 15]]
  /** Per colour: the single and the double pawn push. */
  const PawnMoves: seq<seq<int>> := [[-8, -16], [8, 16]]
  /** Per colour: the two diagonal pawn captures, as square differences. */
  const PawnCaptures: seq<seq<int>> := [[-7, -9], [7, 9]]
  /** Per colour: the same two captures as mailbox steps. */
  const PawnCaptures64: seq<seq<int>> := [[-9, -11], [9, 11]]

  /** The row of Offsets for `piece`, spelled out per piece code. */
  function OffsetRow(piece: int): (nat, seq<int>)
    requires Pawn <= piece <= King
  {
    if piece == Pawn then (0, [0, 0, 0, 0, 0, 0, 0, 0])
    else if piece == Knight then (8, [-21, -19, -12, -8, 8, 12, 19, 21])
    else if piece == Bishop then (4, [-11, -9, 9, 11, 0, 0, 0, 0])
    else if piece == Rook then (4, [-10, -1, 1, 10, 0, 0, 0, 0])
    else (8, [-11, -10, -9, -1, 1, 9, 10, 11])
  }

  /** Every piece code has a row in Offsets, and it is OffsetRow's. */
  lemma OffsetsRow(piece: int)
    requires Pawn <= piece <= King
    ensures piece in Offsets && Offsets[piece] == OffsetRow(piece)
  {
    if piece == Pawn {
    } else if piece == Knight {
    } else if piece == Bishop {
    } else if piece == Rook {
    } else if piece == Queen {
    } else {
    }
  }

  /** Number of directions of a piece code. */
  function DirectionCount(piece: int): (n: nat)
    requires Pawn <= piece <= King
    ensures n <= 8
    ensures n == 0 <==> piece == Pawn
  {
    OffsetRow(piece).0
  }

  /** The `i`-th direction of a piece code, a mailbox step. */
  function Direction(piece: int, i: nat): (d: int)
    requires Pawn <= piece <= King && i < DirectionCount(piece)
    ensures IsRayStep(d)
  {
    OffsetRow(piece).1[i]
  }

  /** The slide flags name bishop, rook and queen as the sliding pieces. */
  lemma SlidingPieces()
    ensures |Slide| == 7
    ensures forall p :: Pawn <= p <= King ==> (Slide[p] <==> p == Bishop || p == Rook || p == Queen)
  {
  }

  // ----------------------------------------------- sliding and stepping walk

  /** Square `q` is on the board and holds no piece. */
  predicate Vacant(pieces: seq<int>, q: int)
    requires |pieces| == 64
  {
    IsSquare(q) && pieces[q] < 0
  }

  /** Destinations added by one direction of the walk of `allowed_moves`,
      from square `sq` on: an empty square is added (and the walk goes on
      only for a sliding piece), an occupied square is added when its colour
      differs from the moving piece's, and every occupied square ends it. */
  function RayMoves(pieces: seq<int>, colors: seq<int>, orig: int, sq: int, d: int, slides: bool): (r: set<int>)
    requires IsBoard(pieces, colors) && IsSquare(orig) && IsSquare(sq) && IsRayStep(d)
    ensures forall x :: x in r ==> IsSquare(x) && (pieces[x] < 0 || colors[x] != colors[orig])
    ensures !slides ==> r <= {Step(sq, d)}
    decreases if d > 0 then 120 - CellOf(sq) else CellOf(sq)
  {
    var next := Step(sq, d);
    if next == -1 then {}
    else if pieces[next] >= 0 then (if colors[orig] != colors[next] then {next} else {})
    else if slides then {next} + RayMoves(pieces, colors, orig, next, d, slides)
    else {next}
  }

  /** `x` is the square reached after `k` steps of `d` from `sq` (a single
      step unless the piece slides), every square passed before it is
      empty, and `x` is empty or holds a colour other than the mover's. */
  ghost predicate RayReaches(pieces: seq<int>, colors: seq<int>, orig: int, sq: int, d: int, slides: bool, k: nat, x: int)
    requires IsBoard(pieces, colors) && IsSquare(orig) && IsSquare(sq) && IsRayStep(d)
  {
    && 1 <= k && (k == 1 || slides)
    && Walk(sq, d, k) == x && x != -1
    && (forall j :: 1 <= j < k ==> Vacant(pieces, Walk(sq, d, j)))
    && (pieces[x] < 0 || colors[x] != colors[orig])
  }

  /** One direction of the walk adds exactly the squares that RayReaches
      describes: the walk stops at the first occupied square of either
      colour, and at the first square for a piece that does not slide. */
  lemma {:induction false} RayMovesReach(pieces: seq<int>, colors: seq<int>, orig: int, sq: int, d: int, slides: bool, x: int)
    requires IsBoard(pieces, colors) && IsSquare(orig) && IsSquare(sq) && IsRayStep(d)
    ensures x in RayMoves(pieces, colors, orig, sq, d, slides) <==> exists k: nat :: RayReaches(pieces, colors, orig, sq, d, slides, k, x)
    decreases if d > 0 then 120 - CellOf(sq) else CellOf(sq)
  {
    var next := Step(sq, d);
    if x in RayMoves(pieces, colors, orig, sq, d, slides) {
      if x == next {
        assert RayReaches(pieces, colors, orig, sq, d, slides, 1, x);
      } else {
        assert next != -1 && pieces[next] < 0 && slides;
        RayMovesReach(pieces, colors, orig, next, d, slides, x);
        var k: nat :| RayReaches(pieces, colors, orig, next, d, slides, k, x);
        forall j | 1 <= j < k + 1 ensures Vacant(pieces, Walk(sq, d, j)) {
          if j > 1 {
            assert Walk(sq, d, j) == Walk(next, d, j - 1);
          }
        }
        assert RayReaches(pieces, colors, orig, sq, d, slides, k + 1, x);
      }
    }
    if k: nat :| RayReaches(pieces, colors, orig, sq, d, slides, k, x) {
      assert next != -1;
      if k > 1 {
        assert Vacant(pieces, Walk(sq, d, 1));
        forall j | 1 <= j < k - 1 ensures Vacant(pieces, Walk(next, d, j)) {
          assert Walk(sq, d, j + 1) == Walk(next, d, j);
        }
        assert RayReaches(pieces, colors, orig, next, d, slides, k - 1, x);
        RayMovesReach(pieces, colors, orig, next, d, slides, x);
      }
    }
  }

  /** Union of the walks of the first `n` directions of `piece`; all of
      them, `n == DirectionCount(piece)`, is what `allowed_moves` returns. */
  function PieceMoves(pieces: seq<int>, colors: seq<int>, orig: int, piece: int, n: nat): (r: set<int>)
    requires IsBoard(pieces, colors) && IsSquare(orig) && Knight <= piece <= King && n <= DirectionCount(piece)
    ensures forall x :: x in r ==> IsSquare(x) && (pieces[x] < 0 || colors[x] != colors[orig])
  {
    if n == 0 then {}
    else PieceMoves(pieces, colors, orig, piece, n - 1) + RayMoves(pieces, colors, orig, orig, Direction(piece, n - 1), Slide[piece])
  }

  /** A piece that does not slide (knight, king) gets at most one
      destination per direction, each a single step away. */
  lemma SteppingPieceMoves(pieces: seq<int>, colors: seq<int>, orig: int, piece: int, n: nat)
    requires IsBoard(pieces, colors) && IsSquare(orig) && Knight <= piece <= King && n <= DirectionCount(piece)
    requires !Slide[piece]
    ensures |PieceMoves(pieces, colors, orig, piece, n)| <= n
    ensures forall x :: x in PieceMoves(pieces, colors, orig, piece, n) ==>
      exists j :: 0 <= j < n && x == Step(orig, Direction(piece, j))
  {
    SteppingPieceMovesCount(pieces, colors, orig, piece, n);
    SteppingPieceMovesStep(pieces, colors, orig, piece, n);
  }

  /** The count half of SteppingPieceMoves. */
  lemma {:induction false} SteppingPieceMovesCount(pieces: seq<int>, colors: seq<int>, orig: int, piece: int, n: nat)
    requires IsBoard(pieces, colors) && IsSquare(orig) && Knight <= piece <= King && n <= DirectionCount(piece)
    requires !Slide[piece]
    ensures |PieceMoves(pieces, colors, orig, piece, n)| <= n
  {
    if n > 0 {
      var d := Direction(piece, n - 1);
      var rest := PieceMoves(pieces, colors, orig, piece, n - 1);
      var ray := RayMoves(pieces, colors, orig, orig, d, false);
      var s := Step(orig, d);
      assert |rest| <= n - 1 by {
        SteppingPieceMovesCount(pieces, colors, orig, piece, n - 1);
      }
      assert ray <= {s};
      UnionWithAtMostOne(rest, ray, s, n - 1);
      assert PieceMoves(pieces, colors, orig, piece, n) == rest + ray;
    }
  }

  /** The step half of SteppingPieceMoves. */
  lemma {:induction false} SteppingPieceMovesStep(pieces: seq<int>, colors: seq<int>, orig: int, piece: int, n: nat)
    requires IsBoard(pieces, colors) && IsSquare(orig) && Knight <= piece <= King && n <= DirectionCount(piece)
    requires !Slide[piece]
    ensures forall x :: x in PieceMoves(pieces, colors, orig, piece, n) ==>
      exists j :: 0 <= j < n && x == Step(orig, Direction(piece, j))
  {
    if n > 0 {
      SteppingPieceMovesStep(pieces, colors, orig, piece, n - 1);
      var d := Direction(piece, n - 1);
      var rest := PieceMoves(pieces, colors, orig, piece, n - 1);
      var ray := RayMoves(pieces, colors, orig, orig, d, false);
      assert PieceMoves(pieces, colors, orig, piece, n) == rest + ray;
      forall x | x in rest + ray
        ensures exists j :: 0 <= j < n && x == Step(orig, Direction(piece, j))
      {
        if x in ray {
          assert x == Step(orig, Direction(piece, n - 1));
        } else {
          var j :| 0 <= j < n - 1 && x == Step(orig, Direction(piece, j));
        }
      }
    }
  }

  /** Adding at most one element to a set of at most `m` elements. */
  lemma UnionWithAtMostOne(rest: set<int>, ray: set<int>, s: int, m: nat)
    requires |rest| <= m && ray <= {s}
    ensures |rest + ray| <= m + 1
  {
    if ray != {} {
      assert ray == {s};
      assert |rest + ray| <= |rest| + |ray|;
    }
    else {
      assert rest + ray == rest;
    }
  }

  /** One of the first `n` directions of `piece` reaches `x` in the sense of
      RayReaches. */
  ghost predicate PieceReaches(pieces: seq<int>, colors: seq<int>, orig: int, piece: int, n: nat, x: int)
    requires IsBoard(pieces, colors) && IsSquare(orig) && Knight <= piece <= King && n <= DirectionCount(piece)
  {
    exists j: nat, k: nat :: j < n && RayReaches(pieces, colors, orig, orig, Direction(piece, j), Slide[piece], k, x)
  }

  /** Reaching within `m + 1` directions is reaching within the first `m`
      or along direction `m`. */
  lemma PieceReachesStep(pieces: seq<int>, colors: seq<int>, orig: int, piece: int, m: nat, x: int)
    requires IsBoard(pieces, colors) && IsSquare(orig) && Knight <= piece <= King && m < DirectionCount(piece)
    ensures PieceReaches(pieces, colors, orig, piece, m + 1, x) <==>
      PieceReaches(pieces, colors, orig, piece, m, x)
      || (exists k: nat :: RayReaches(pieces, colors, orig, orig, Direction(piece, m), Slide[piece], k, x))
  {
    if PieceReaches(pieces, colors, orig, piece, m + 1, x) {
      var j: nat, k: nat :| j < m + 1 && RayReaches(pieces, colors, orig, orig, Direction(piece, j), Slide[piece], k, x);
      if j < m {
        assert PieceReaches(pieces, colors, orig, piece, m, x);
      }
    }
    if k: nat :| RayReaches(pieces, colors, orig, orig, Direction(piece, m), Slide[piece], k, x) {
      assert m < m + 1;
      assert PieceReaches(pieces, colors, orig, piece, m + 1, x);
    }
    if PieceReaches(pieces, colors, orig, piece, m, x) {
      var j: nat, k: nat :| j < m && RayReaches(pieces, colors, orig, orig, Direction(piece, j), Slide[piece], k, x);
      assert j < m + 1;
    }
  }

  /** The non-pawn walk adds exactly the squares some direction of the piece
      reaches in the sense of RayReaches. */
  lemma {:induction false} PieceMovesReach(pieces: seq<int>, colors: seq<int>, orig: int, piece: int, n: nat, x: int)
    requires IsBoard(pieces, colors) && IsSquare(orig) && Knight <= piece <= King && n <= DirectionCount(piece)
    ensures x in PieceMoves(pieces, colors, orig, piece, n) <==> PieceReaches(pieces, colors, orig, piece, n, x)
  {
    if n > 0 {
      RayMovesReach(pieces, colors, orig, orig, Direction(piece, n - 1), Slide[piece], x);
      PieceMovesReach(pieces, colors, orig, piece, n - 1, x);
      PieceReachesStep(pieces, colors, orig, piece, n - 1, x);
    } else {
      assert !PieceReaches(pieces, colors, orig, piece, n, x);
    }
  }

  // ------------------------------------------------------------ pawn moves

  /** Every square the pawn branch reads is on the board: outside this the
      source indexes the arrays with a wrapped-around or an out-of-range
      number. The colour of the pawn must be a player's, since it selects a
      row of the pawn tables. */
  predicate PawnReadsOnBoard(colors: seq<int>, orig: int)
    requires |colors| == 64 && IsSquare(orig)
  {
    var c := colors[orig];
    && (c == White || c == Black)
    && IsSquare(orig + PawnMoves[c][0])
    && (FirstRows[c][0] <= orig <= FirstRows[c][1] ==> IsSquare(orig + PawnMoves[c][1]))
    && (Step(orig, PawnCaptures64[c][0]) > -1 ==> IsSquare(orig + PawnCaptures[c][0]) && IsSquare(orig + PawnCaptures[c][1]))
  }

  /** The pawn branch of `allowed_moves`. The single push needs an empty
      square; the double push needs the pawn on its first row and an empty
      target, whatever stands in between; each diagonal needs an enemy colour
      on it and an on-board result of the FIRST capture step, which is the
      edge test the source uses for both diagonals. */
  function PawnDestinations(pieces: seq<int>, colors: seq<int>, orig: int): (r: set<int>)
    requires IsBoard(pieces, colors) && IsSquare(orig) && PawnReadsOnBoard(colors, orig)
    ensures forall x :: x in r ==> IsSquare(x) && (pieces[x] < 0 || colors[x] == OpponentColor(colors[orig]))
  {
    PawnPushSet(pieces, colors, orig) + PawnCaptureSet(pieces, colors, orig)
  }

  /** The two pushes: one square forward onto an empty square, and two
      squares forward from the first row onto an empty square. */
  function PawnPushSet(pieces: seq<int>, colors: seq<int>, orig: int): (r: set<int>)
    requires IsBoard(pieces, colors) && IsSquare(orig) && PawnReadsOnBoard(colors, orig)
    ensures forall x :: x in r ==> IsSquare(x) && pieces[x] < 0
  {
    var c := colors[orig];
    var one, two := orig + PawnMoves[c][0], orig + PawnMoves[c][1];
    (if pieces[one] < 0 then {one} else {})
    + (if FirstRows[c][0] <= orig <= FirstRows[c][1] && pieces[two] < 0 then {two} else {})
  }

  /** The two diagonal captures, both behind the edge test of the first
      capture step. */
  function PawnCaptureSet(pieces: seq<int>, colors: seq<int>, orig: int): (r: set<int>)
    requires IsBoard(pieces, colors) && IsSquare(orig) && PawnReadsOnBoard(colors, orig)
    ensures forall x :: x in r ==> IsSquare(x) && colors[x] == OpponentColor(colors[orig])
  {
    var c := colors[orig];
    var left, right := orig + PawnCaptures[c][0], orig + PawnCaptures[c][1];
    var edge := Step(orig, PawnCaptures64[c][0]) > -1;
    (if edge && colors[left] == OpponentColor(c) then {left} else {})
    + (if edge && colors[right] == OpponentColor(c) then {right} else {})
  }

  /** The four candidates of the pawn branch, each with the condition under
      which it is offered. */
  lemma PawnDestinationsExactly(pieces: seq<int>, colors: seq<int>, orig: int)
    requires IsBoard(pieces, colors) && IsSquare(orig) && PawnReadsOnBoard(colors, orig)
    ensures var r := PawnDestinations(pieces, colors, orig);
      var c := colors[orig];
      var one, two := orig + PawnMoves[c][0], orig + PawnMoves[c][1];
      var left, right := orig + PawnCaptures[c][0], orig + PawnCaptures[c][1];
      var firstRow := FirstRows[c][0] <= orig <= FirstRows[c][1];
      var edge := Step(orig, PawnCaptures64[c][0]) > -1;
      && (forall x :: x in r ==> IsSquare(x) && (x == one || x == two || x == left || x == right))
      && (one in r <==> pieces[one] < 0)
      && (two in r <==> firstRow && pieces[two] < 0)
      && (left in r <==> edge && colors[left] == OpponentColor(c))
      && (right in r <==> edge && colors[right] == OpponentColor(c))
  {
    if colors[orig] == White {
    } else {
    }
  }

  /** Whether the double push is offered does not depend on the square it
      jumps over. */
  lemma DoublePushIgnoresJumpedSquare(pieces: seq<int>, colors: seq<int>, orig: int, v: int)
    requires IsBoard(pieces, colors) && IsSquare(orig) && PawnReadsOnBoard(colors, orig)
    ensures var c := colors[orig];
      var one, two := orig + PawnMoves[c][0], orig + PawnMoves[c][1];
      two in PawnDestinations(pieces, colors, orig) <==> two in PawnDestinations(pieces[one := v], colors, orig)
  {
  }

  /** The mailbox frame is wide enough for every step of at most two rows and
      two columns: such a step is off the board exactly when its row or column
      is, and otherwise lands `8 * dr + dc` squares away. */
  lemma StepGeometry(sq: int, dr: int, dc: int)
    requires IsSquare(sq) && -2 <= dr <= 2 && -2 <= dc <= 2 && -21 <= 10 * dr + dc <= 21
    ensures Step(sq, 10 * dr + dc) != -1 <==> 0 <= sq / 8 + dr < 8 && 0 <= sq % 8 + dc < 8
    ensures Step(sq, 10 * dr + dc) != -1 ==> Step(sq, 10 * dr + dc) == sq + 8 * dr + dc
  {
    var row, col := sq / 8, sq % 8;
    var x := CellOf(sq) + 10 * dr + dc;
    if 0 <= row + dr < 8 && 0 <= col + dc < 8 {
      assert x == (row + dr + 2) * 10 + (col + dc + 1);
      DivModTen(row + dr + 2, col + dc + 1);
      assert SquareIn(x) == (row + dr) * 8 + col + dc;
    } else if 0 <= col + dc < 8 {
      assert x == (row + dr + 2) * 10 + (col + dc + 1);
      DivModTen(row + dr + 2, col + dc + 1);
    } else if col + dc == -1 {
      assert x == (row + dr + 2) * 10;
      DivModTen(row + dr + 2, 0);
    } else if col + dc == -2 {
      assert x == (row + dr + 1) * 10 + 9;
      DivModTen(row + dr + 1, 9);
    } else if col + dc == 8 {
      assert x == (row + dr + 2) * 10 + 9;
      DivModTen(row + dr + 2, 9);
    } else {
      assert x == (row + dr + 3) * 10;
      DivModTen(row + dr + 3, 0);
    }
  }

  /** Rows are counted from square 0: colour 0 pushes towards row 0, colour 1
      towards row 7. */
  function Forward(c: int): (f: int)
    ensures f == 1 || f == -1
  {
    if c == White then -1 else 1
  }

  /** The mailbox step `pawn_captures64[c][j]` is the diagonal one row
      forward, and `pawn_captures[c][j]` names the same square whenever that
      diagonal is on the board. */
  lemma CaptureStep(orig: int, c: int, j: int)
    requires IsSquare(orig) && (c == White || c == Black) && 0 <= j < 2
    ensures var dc := if (c == White) == (j == 0) then 1 else -1;
      && PawnCaptures64[c][j] == 10 * Forward(c) + dc
      && PawnCaptures[c][j] == 8 * Forward(c) + dc
      && (Step(orig, PawnCaptures64[c][j]) != -1 <==> 0 <= orig / 8 + Forward(c) < 8 && 0 <= orig % 8 + dc < 8)
      && (Step(orig, PawnCaptures64[c][j]) != -1 ==> Step(orig, PawnCaptures64[c][j]) == orig + PawnCaptures[c][j])
  {
    var dc := if (c == White) == (j == 0) then 1 else -1;
    StepGeometry(orig, Forward(c), dc);
  }

  /** The right-hand capture is guarded by the left-hand edge test: a colour-0
      pawn on square 48 (row 6, column 0) is offered square 39 (row 4,
      column 7), two rows away on the far side of the board. */
  lemma RightCaptureWrapsAround(pieces: seq<int>, colors: seq<int>)
    requires IsBoard(pieces, colors) && colors[48] == White && colors[39] == Black
    ensures PawnReadsOnBoard(colors, 48)
    ensures 39 in PawnDestinations(pieces, colors, 48)
    ensures 39 / 8 != 48 / 8 + Forward(White)
  {
    CaptureStep(48, White, 0);
    PawnDestinationsExactly(pieces, colors, 48);
  }

  /** The mirror case of the same guard: a colour-0 pawn on square 55 (row 6,
      column 7) is not offered its diagonal neighbour 46 of colour 1,
      because the first capture step leaves the board on that side; the
      corrected branch offers it. */
  lemma HFileCaptureMissed(pieces: seq<int>, colors: seq<int>)
    requires IsBoard(pieces, colors) && colors[55] == White && colors[46] == Black
    ensures PawnReadsOnBoard(colors, 55)
    ensures 46 / 8 == 55 / 8 + Forward(White) && 46 % 8 == 55 % 8 - 1
    ensures 46 !in PawnDestinations(pieces, colors, 55)
    ensures 46 in PawnDestinationsIntended(pieces, colors, 55)
  {
    CaptureStep(55, White, 0);
    PawnDestinationsExactly(pieces, colors, 55);
    PawnDestinationsIntendedComplete(pieces, colors, 55, 46);
  }

  /** The double push jumps a blocker: with a piece on 40 and square 32 empty,
      a colour-0 pawn on 48 is offered 32. */
  lemma DoublePushJumpsBlocker(pieces: seq<int>, colors: seq<int>)
    requires IsBoard(pieces, colors) && colors[48] == White && pieces[40] == Pawn && pieces[32] == Empty
    ensures PawnReadsOnBoard(colors, 48)
    ensures 32 in PawnDestinations(pieces, colors, 48) && pieces[40] >= 0
  {
    CaptureStep(48, White, 0);
    PawnDestinationsExactly(pieces, colors, 48);
  }

  /** The pawn branch as evidently intended: each diagonal is guarded by its
      own edge test, and the double push needs the square it passes. */
  function PawnDestinationsIntended(pieces: seq<int>, colors: seq<int>, orig: int): (r: set<int>)
    requires IsBoard(pieces, colors) && IsSquare(orig)
    requires colors[orig] == White || colors[orig] == Black
    requires IsSquare(orig + PawnMoves[colors[orig]][0])
    ensures forall x :: x in r ==> IsSquare(x)
  {
    var c := colors[orig];
    var one, two := orig + PawnMoves[c][0], orig + PawnMoves[c][1];
    (if pieces[one] < 0 then {one} else {})
    + (if FirstRows[c][0] <= orig <= FirstRows[c][1] && pieces[one] < 0 && pieces[two] < 0 then {two} else {})
    + DiagonalCapture(colors, orig, 0)
    + DiagonalCapture(colors, orig, 1)
  }

  /** The corrected capture along diagonal `j`: guarded by that diagonal's
      own edge test. */
  function DiagonalCapture(colors: seq<int>, orig: int, j: int): (r: set<int>)
    requires |colors| == 64 && IsSquare(orig) && (colors[orig] == White || colors[orig] == Black) && 0 <= j < 2
    ensures var c := colors[orig];
      r == {} || (r == {orig + PawnCaptures[c][j]} && IsSquare(orig + PawnCaptures[c][j])
        && Step(orig, PawnCaptures64[c][j]) > -1 && colors[orig + PawnCaptures[c][j]] == OpponentColor(c))
  {
    var c := colors[orig];
    CaptureStep(orig, c, j);
    var sq := orig + PawnCaptures[c][j];
    if Step(orig, PawnCaptures64[c][j]) > -1 && colors[sq] == OpponentColor(c) then {sq} else {}
  }

  /** The four candidates of the corrected pawn branch, each with the
      condition under which it is offered. */
  lemma PawnDestinationsIntendedExactly(pieces: seq<int>, colors: seq<int>, orig: int)
    requires IsBoard(pieces, colors) && IsSquare(orig)
    requires colors[orig] == White || colors[orig] == Black
    requires IsSquare(orig + PawnMoves[colors[orig]][0])
    ensures var r := PawnDestinationsIntended(pieces, colors, orig);
      var c := colors[orig];
      var one, two := orig + PawnMoves[c][0], orig + PawnMoves[c][1];
      var left, right := orig + PawnCaptures[c][0], orig + PawnCaptures[c][1];
      && (forall x :: x in r ==> x == one || x == two || x == left || x == right)
      && (one in r <==> pieces[one] < 0)
      && (two in r <==> FirstRows[c][0] <= orig <= FirstRows[c][1] && pieces[one] < 0 && pieces[two] < 0)
      && (left in r <==> Step(orig, PawnCaptures64[c][0]) > -1 && colors[left] == OpponentColor(c))
      && (right in r <==> Step(orig, PawnCaptures64[c][1]) > -1 && colors[right] == OpponentColor(c))
  {
    if colors[orig] == White {
    } else {
    }
  }

  /** Everything the corrected pawn branch offers is a push one row forward
      onto an empty square, a push two rows forward from the first row over
      an empty square onto an empty square, or a capture of an enemy colour
      on a diagonal neighbour one row forward. */
  lemma PawnDestinationsIntendedSound(pieces: seq<int>, colors: seq<int>, orig: int, x: int)
    requires IsBoard(pieces, colors) && IsSquare(orig)
    requires colors[orig] == White || colors[orig] == Black
    requires IsSquare(orig + PawnMoves[colors[orig]][0])
    requires x in PawnDestinationsIntended(pieces, colors, orig)
    ensures var c := colors[orig];
      var f := Forward(c);
      || (x == orig + 8 * f && pieces[x] < 0)
      || (x == orig + 16 * f && FirstRows[c][0] <= orig <= FirstRows[c][1] && pieces[orig + 8 * f] < 0 && pieces[x] < 0)
      || (x / 8 == orig / 8 + f && (x % 8 == orig % 8 + 1 || x % 8 == orig % 8 - 1) && colors[x] == OpponentColor(c))
  {
    var c := colors[orig];
    var f := Forward(c);
    if x in DiagonalCapture(colors, orig, 0) || x in DiagonalCapture(colors, orig, 1) {
      var j := if x in DiagonalCapture(colors, orig, 0) then 0 else 1;
      CaptureStep(orig, c, j);
      var dc := if (c == White) == (j == 0) then 1 else -1;
      DivModEight(orig / 8 + f, orig % 8 + dc);
      assert x == (orig / 8 + f) * 8 + (orig % 8 + dc);
    } else {
      assert PawnMoves[c][0] == 8 * f && PawnMoves[c][1] == 16 * f;
    }
  }

  /** The corrected pawn branch offers every diagonal neighbour one row
      forward that holds an enemy colour, and no other diagonal neighbour. */
  lemma PawnDestinationsIntendedComplete(pieces: seq<int>, colors: seq<int>, orig: int, x: int)
    requires IsBoard(pieces, colors) && IsSquare(orig)
    requires colors[orig] == White || colors[orig] == Black
    requires IsSquare(orig + PawnMoves[colors[orig]][0])
    requires IsSquare(x) && x / 8 == orig / 8 + Forward(colors[orig])
    requires x % 8 == orig % 8 + 1 || x % 8 == orig % 8 - 1
    ensures x in PawnDestinationsIntended(pieces, colors, orig) <==> colors[x] == OpponentColor(colors[orig])
  {
    var c := colors[orig];
    CaptureStep(orig, c, 0);
    CaptureStep(orig, c, 1);
    PawnDestinationsIntendedExactly(pieces, colors, orig);
    var dc := x % 8 - orig % 8;
    assert x == orig + 8 * Forward(c) + dc;
  }

  // ------------------------------------------------------------ the method

  /** The inner `while expanding` loop of `allowed_moves`: the walk from
      `orig` in direction `d`. */
  method WalkRay(orig: int, d: int, slides: bool, pieces: array<int>, colors: array<int>) returns (found: set<int>)
    requires pieces.Length == 64 && colors.Length == 64 && IsSquare(orig) && IsRayStep(d)
    ensures found == RayMoves(pieces[..], colors[..], orig, orig, d, slides)
  {
    ghost var P, C := pieces[..], colors[..];
    found := {};
    var idx := orig;
    var expanding := true;
    while expanding
      invariant IsSquare(idx)
      invariant found + (if expanding then RayMoves(P, C, orig, idx, d, slides) else {})
                == RayMoves(P, C, orig, orig, d, slides)
      decreases expanding, if d > 0 then 120 - CellOf(idx) else CellOf(idx)
    {
      StepIsTableLookup(idx, d);
      var next := Mailbox[Mailbox64[idx] + d];
      if next == -1 {
        break;
      }
      if pieces[next] >= 0 {
        if colors[orig] != colors[next] {
          // an enemy piece: capture it and stop
          found := found + {next};
        }
        expanding := false;
      } else {
        found := found + {next};
        if !slides {
          expanding := false;
        }
      }
      idx := next;
    }
  }

  /** The pawn branch of `allowed_moves`. */
  method PawnAllowedMoves(orig: int, pieces: array<int>, colors: array<int>) returns (moves: set<int>)
    requires pieces.Length == 64 && colors.Length == 64 && IsSquare(orig)
    requires PawnReadsOnBoard(colors[..], orig)
    ensures moves == PawnDestinations(pieces[..], colors[..], orig)
  {
    moves := {};
    moves := AddPawnPushes(orig, pieces, colors, moves);
    moves := AddPawnCaptures(orig, pieces, colors, moves);
  }

  /** The pushes of the pawn branch, added to `moves0`. */
  method AddPawnPushes(orig: int, pieces: array<int>, colors: array<int>, moves0: set<int>) returns (moves: set<int>)
    requires pieces.Length == 64 && colors.Length == 64 && IsSquare(orig)
    requires PawnReadsOnBoard(colors[..], orig)
    ensures moves == moves0 + PawnPushSet(pieces[..], colors[..], orig)
  {
    moves := moves0;
    var c := colors[orig];
    var one := orig + PawnMoves[c][0];
    var two := orig + PawnMoves[c][1];
    if pieces[one] < 0 {
      moves := moves + {one};
    }
    if FirstRows[c][0] <= orig <= FirstRows[c][1] {
      if pieces[two] < 0 {
        moves := moves + {two};
      }
    }
  }

  /** The captures of the pawn branch, added to `moves0`. */
  method AddPawnCaptures(orig: int, pieces: array<int>, colors: array<int>, moves0: set<int>) returns (moves: set<int>)
    requires pieces.Length == 64 && colors.Length == 64 && IsSquare(orig)
    requires PawnReadsOnBoard(colors[..], orig)
    ensures moves == moves0 + PawnCaptureSet(pieces[..], colors[..], orig)
  {
    moves := moves0;
    var c := colors[orig];
    var left := orig + PawnCaptures[c][0];
    var right := orig + PawnCaptures[c][1];
    StepIsTableLookup(orig, PawnCaptures64[c][0]);
    if Mailbox[Mailbox64[orig] + PawnCaptures64[c][0]] > -1 {
      if colors[left] == OpponentColor(c) {
        moves := moves + {left};
      }
    }
    // the right diagonal is guarded by the same (left) edge test
    if Mailbox[Mailbox64[orig] + PawnCaptures64[c][0]] > -1 {
      if colors[right] == OpponentColor(c) {
        moves := moves + {right};
      }
    }
  }

  /** The `for` loop of the non-pawn branch: one walk per direction, over
      the row `dirs` the branch reads from `offsets`. */
  method WalkDirections(orig: int, piece: int, n: nat, dirs: seq<int>, pieces: array<int>, colors: array<int>)
    returns (moves: set<int>)
    requires pieces.Length == 64 && colors.Length == 64 && IsSquare(orig) && Knight <= piece <= King
    requires n == DirectionCount(piece) && dirs == OffsetRow(piece).1
    ensures moves == PieceMoves(pieces[..], colors[..], orig, piece, n)
  {
    ghost var P, C := pieces[..], colors[..];
    moves := {};
    var slides := Slide[piece];
    for i := 0 to n
      invariant moves == PieceMoves(P, C, orig, piece, i)
    {
      var d := dirs[i];
      assert d == Direction(piece, i);
      var found := WalkRay(orig, d, slides, pieces, colors);
      assert PieceMoves(P, C, orig, piece, i + 1) == moves + found;
      moves := moves + found;
    }
  }

  /** The non-pawn branch of `allowed_moves`: the piece's row of `offsets`,
      walked direction by direction. */
  method PieceAllowedMoves(orig: int, piece: int, pieces: array<int>, colors: array<int>) returns (moves: set<int>)
    requires pieces.Length == 64 && colors.Length == 64 && IsSquare(orig) && Knight <= piece <= King
    ensures moves == PieceMoves(pieces[..], colors[..], orig, piece, DirectionCount(piece))
  {
    OffsetsRow(piece);
    var row := Offsets[piece];
    moves := WalkDirections(orig, piece, row.0, row.1, pieces, colors);
  }

  /** `MoveGen.allowed_moves`: the pseudo-legal destinations of the piece of
      code `piece` standing on `orig`; the two arrays are only read. */
  method AllowedMoves(orig: int, piece: int, pieces: array<int>, colors: array<int>) returns (moves: set<int>)
    requires pieces.Length == 64 && colors.Length == 64 && IsSquare(orig) && Pawn <= piece <= King
    requires piece == Pawn ==> PawnReadsOnBoard(colors[..], orig)
    ensures piece != Pawn ==> moves == PieceMoves(pieces[..], colors[..], orig, piece, DirectionCount(piece))
    ensures piece == Pawn ==> moves == PawnDestinations(pieces[..], colors[..], orig)
  {
    if piece != Pawn {
      moves := PieceAllowedMoves(orig, piece, pieces, colors);
    } else {
      moves := PawnAllowedMoves(orig, pieces, colors);
    }
  }
}

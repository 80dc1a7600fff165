/** The older destination generator of movegen.py. It walks the same
    mailbox geometry as moves.py (the tables are identical), but reads only
    the colour array, keeps walking past an enemy piece, and consults a
    six-entry slide list that is shifted by one against the piece codes. */
module MoveGenerator {
  import opened Misc
  import opened Moves

  /** What `allowed_moves` yields: the destinations in the order they were
      appended, or the IndexError raised by reading past the slide list. */
  datatype Outcome = Squares(list: seq<int>) | IndexError

  /** The slide list of movegen.py: entry p is read for piece code p, so the
      knight, bishop and rook slide, the queen does not, and the king (code
      6) has no entry at all. */
  const GenSlide: seq<bool> := [false, false, true, true, true, false]

  /** The shifted slide list, spelled out per piece code. */
  lemma GenSlideShifted()
    ensures |GenSlide| == King
    ensures forall p :: 0 <= p < |GenSlide| ==> (GenSlide[p] <==> p == Knight || p == Bishop || p == Rook)
    ensures !GenSlide[Queen]
  {
  }

  /** `x` appended in front of an outcome; an error stays an error. */
  function Prepend(x: int, o: Outcome): (r: Outcome)
    ensures r.IndexError? <==> o.IndexError?
    ensures r.Squares? ==> r.list == [x] + o.list
  {
    match o
    case Squares(s) => Squares([x] + s)
    case IndexError => IndexError
  }

  /** The squares `m` collected so far, followed by an outcome. */
  function Append(m: seq<int>, o: Outcome): (r: Outcome)
    ensures r.IndexError? <==> o.IndexError?
    ensures r.Squares? ==> r.list == m + o.list
  {
    match o
    case Squares(s) => Squares(m + s)
    case IndexError => IndexError
  }

  lemma AppendPrepend(m: seq<int>, x: int, o: Outcome)
    ensures Append(m, Prepend(x, o)) == Append(m + [x], o)
  {
    if o.Squares? {
      assert m + ([x] + o.list) == (m + [x]) + o.list;
    }
  }

  lemma AppendConcat(m: seq<int>, s: seq<int>, o: Outcome)
    ensures Append(m, Concat(Squares(s), o)) == Append(m + s, o)
  {
    if o.Squares? {
      assert m + (s + o.list) == (m + s) + o.list;
    }
  }

  /** One outcome after the other; an error in either is the error. */
  function Concat(a: Outcome, b: Outcome): (r: Outcome)
    ensures r.IndexError? <==> a.IndexError? || b.IndexError?
    ensures r.Squares? ==> r.list == a.list + b.list
  {
    match a
    case IndexError => IndexError
    case Squares(s) => Append(s, b)
  }

  /** The square `q` does not stop the walk once reached: it holds an enemy
      colour, or it is empty and the slide entry of `piece` exists and is
      set. */
  predicate Passable(colors: seq<int>, orig: int, piece: int, q: int)
    requires |colors| == 64 && IsSquare(orig) && 0 <= piece
  {
    && IsSquare(q)
    && if colors[q] >= 0 then colors[q] != colors[orig] else piece < |GenSlide| && GenSlide[piece]
  }

  /** One direction of the walk from `sq` on: an enemy square is appended and
      the walk goes on; an own-colour square ends it; an empty square is
      appended, and then the slide entry of `piece` is read, which fails for
      a code past the list and otherwise decides whether the walk goes on. */
  function GenRay(colors: seq<int>, orig: int, sq: int, d: int, piece: int): (r: Outcome)
    requires |colors| == 64 && IsSquare(orig) && IsSquare(sq) && IsRayStep(d) && 0 <= piece
    ensures r.Squares? ==> forall x :: x in r.list ==> IsSquare(x) && (colors[x] < 0 || colors[x] != colors[orig])
    decreases if d > 0 then 120 - CellOf(sq) else CellOf(sq)
  {
    var next := Step(sq, d);
    if next == -1 then Squares([])
    else if colors[next] >= 0 then
      if colors[orig] != colors[next] then Prepend(next, GenRay(colors, orig, next, d, piece))
      else Squares([])
    else if piece >= |GenSlide| then IndexError
    else if GenSlide[piece] then Prepend(next, GenRay(colors, orig, next, d, piece))
    else Squares([next])
  }

  /** `x` is reached after `k` steps of `d` from `sq`, is not of the mover's
      colour, and every square passed before it is Passable. */
  ghost predicate GenReaches(colors: seq<int>, orig: int, sq: int, d: int, piece: int, k: nat, x: int)
    requires |colors| == 64 && IsSquare(orig) && IsSquare(sq) && IsRayStep(d) && 0 <= piece
  {
    && 1 <= k
    && Walk(sq, d, k) == x && x != -1
    && (colors[x] < 0 || colors[x] != colors[orig])
    && (forall j :: 1 <= j < k ==> Passable(colors, orig, piece, Walk(sq, d, j)))
  }

  /** The walk reaches, over Passable squares only, an empty square after
      `k` steps: there the slide entry is read. */
  ghost predicate ReadsSlideAt(colors: seq<int>, orig: int, sq: int, d: int, piece: int, k: nat)
    requires |colors| == 64 && IsSquare(orig) && IsSquare(sq) && IsRayStep(d) && 0 <= piece
  {
    && 1 <= k
    && Walk(sq, d, k) != -1 && colors[Walk(sq, d, k)] < 0
    && (forall j :: 1 <= j < k ==> Passable(colors, orig, piece, Walk(sq, d, j)))
  }

  /** Shifting a walk by its first step. */
  lemma WalkShift(sq: int, d: int, j: nat)
    requires IsSquare(sq) && IsRayStep(d) && Step(sq, d) != -1
    ensures Walk(sq, d, j + 1) == Walk(Step(sq, d), d, j)
  {
  }

  /** One direction fails exactly when the piece has no slide entry and the
      walk reaches an empty square over enemy squares. */
  lemma {:induction false} GenRayError(colors: seq<int>, orig: int, sq: int, d: int, piece: int)
    requires |colors| == 64 && IsSquare(orig) && IsSquare(sq) && IsRayStep(d) && 0 <= piece
    ensures GenRay(colors, orig, sq, d, piece).IndexError? <==>
      piece >= |GenSlide| && exists k: nat :: ReadsSlideAt(colors, orig, sq, d, piece, k)
    decreases if d > 0 then 120 - CellOf(sq) else CellOf(sq)
  {
    var next := Step(sq, d);
    if next != -1 {
      GenRayError(colors, orig, next, d, piece);
      if GenRay(colors, orig, sq, d, piece).IndexError? {
        if colors[next] >= 0 {
          var k: nat :| ReadsSlideAt(colors, orig, next, d, piece, k);
          forall j | 1 <= j < k + 1 ensures Passable(colors, orig, piece, Walk(sq, d, j)) {
            if j > 1 {
              WalkShift(sq, d, j - 1);
            }
          }
          WalkShift(sq, d, k);
          assert ReadsSlideAt(colors, orig, sq, d, piece, k + 1);
        } else {
          assert ReadsSlideAt(colors, orig, sq, d, piece, 1);
        }
      }
      if piece >= |GenSlide| && exists k: nat :: ReadsSlideAt(colors, orig, sq, d, piece, k) {
        var k: nat :| ReadsSlideAt(colors, orig, sq, d, piece, k);
        if k > 1 {
          assert Passable(colors, orig, piece, Walk(sq, d, 1));
          forall j | 1 <= j < k - 1 ensures Passable(colors, orig, piece, Walk(next, d, j)) {
            WalkShift(sq, d, j);
          }
          WalkShift(sq, d, k - 1);
          assert ReadsSlideAt(colors, orig, next, d, piece, k - 1);
        }
      }
    }
  }

  /** When one direction succeeds, it yields exactly the squares GenReaches
      describes: enemy squares do not end the walk, own-colour squares do. */
  lemma {:induction false} GenRayReach(colors: seq<int>, orig: int, sq: int, d: int, piece: int, x: int)
    requires |colors| == 64 && IsSquare(orig) && IsSquare(sq) && IsRayStep(d) && 0 <= piece
    requires GenRay(colors, orig, sq, d, piece).Squares?
    ensures x in GenRay(colors, orig, sq, d, piece).list <==> exists k: nat :: GenReaches(colors, orig, sq, d, piece, k, x)
    decreases if d > 0 then 120 - CellOf(sq) else CellOf(sq)
  {
    var next := Step(sq, d);
    var r := GenRay(colors, orig, sq, d, piece);
    if next != -1 {
      var goesOn := Passable(colors, orig, piece, next);
      if goesOn {
        GenRayReach(colors, orig, next, d, piece, x);
      }
      if x in r.list {
        if x == next {
          assert GenReaches(colors, orig, sq, d, piece, 1, x);
        } else {
          assert goesOn;
          var k: nat :| GenReaches(colors, orig, next, d, piece, k, x);
          forall j | 1 <= j < k + 1 ensures Passable(colors, orig, piece, Walk(sq, d, j)) {
            if j > 1 {
              WalkShift(sq, d, j - 1);
            }
          }
          WalkShift(sq, d, k);
          assert GenReaches(colors, orig, sq, d, piece, k + 1, x);
        }
      }
      if k: nat :| GenReaches(colors, orig, sq, d, piece, k, x) {
        if k == 1 {
          assert x == next;
        } else {
          assert Passable(colors, orig, piece, Walk(sq, d, 1));
          forall j | 1 <= j < k - 1 ensures Passable(colors, orig, piece, Walk(next, d, j)) {
            WalkShift(sq, d, j);
          }
          WalkShift(sq, d, k - 1);
          assert GenReaches(colors, orig, next, d, piece, k - 1, x);
        }
      }
    }
  }

  /** The outcomes of several walks, one after the other. */
  function ConcatAll(os: seq<Outcome>): (r: Outcome)
    decreases |os|
  {
    if |os| == 0 then Squares([]) else Concat(os[0], ConcatAll(os[1..]))
  }

  /** The walks fail together exactly when one of them fails. */
  lemma {:induction false} ConcatAllError(os: seq<Outcome>)
    ensures ConcatAll(os).IndexError? <==> exists j :: 0 <= j < |os| && os[j].IndexError?
    decreases |os|
  {
    if |os| > 0 {
      ConcatAllError(os[1..]);
      if os[0].IndexError? {
        assert 0 <= 0 < |os|;
      }
      if j :| 0 <= j < |os| && os[j].IndexError? {
        if j > 0 {
          assert os[1..][j - 1] == os[j];
        }
      }
    }
  }

  /** When the walks succeed together, each of them succeeds, and together
      they yield exactly the squares some of them yield. */
  lemma {:induction false} ConcatAllMembers(os: seq<Outcome>, x: int)
    requires ConcatAll(os).Squares?
    ensures forall j :: 0 <= j < |os| ==> os[j].Squares?
    ensures x in ConcatAll(os).list <==> exists j :: 0 <= j < |os| && x in os[j].list
    decreases |os|
  {
    if |os| > 0 {
      ConcatAllMembers(os[1..], x);
      assert forall j :: 1 <= j < |os| ==> os[j] == os[1..][j - 1];
      if x in os[0].list {
        assert 0 <= 0 < |os|;
      }
      if j :| 0 <= j < |os| && x in os[j].list {
        if j > 0 {
          assert os[1..][j - 1] == os[j];
        }
      }
    }
  }

  /** The walks of every direction of `piece`, in the order of its offsets. */
  function RayOutcomes(colors: seq<int>, orig: int, piece: int): (r: seq<Outcome>)
    requires |colors| == 64 && IsSquare(orig) && Pawn <= piece <= King
    ensures |r| == DirectionCount(piece)
    ensures forall j :: 0 <= j < |r| ==> r[j] == GenRay(colors, orig, orig, Direction(piece, j), piece)
  {
    seq(DirectionCount(piece), j requires 0 <= j < DirectionCount(piece) =>
      GenRay(colors, orig, orig, Direction(piece, j), piece))
  }

  /** What the non-pawn branch of `allowed_moves` yields. */
  function GenAll(colors: seq<int>, orig: int, piece: int): (r: Outcome)
    requires |colors| == 64 && IsSquare(orig) && Pawn <= piece <= King
  {
    ConcatAll(RayOutcomes(colors, orig, piece))
  }

  /** Every destination is a square that does not hold the mover's colour. */
  lemma GenAllSquares(colors: seq<int>, orig: int, piece: int, x: int)
    requires |colors| == 64 && IsSquare(orig) && Pawn <= piece <= King
    requires GenAll(colors, orig, piece).Squares? && x in GenAll(colors, orig, piece).list
    ensures IsSquare(x) && (colors[x] < 0 || colors[x] != colors[orig])
  {
    var os := RayOutcomes(colors, orig, piece);
    ConcatAllMembers(os, x);
    var j :| 0 <= j < |os| && x in os[j].list;
  }

  /** The generator fails exactly when some direction fails, and only the
      king, whose code is past the slide list, can make it fail. */
  lemma GenAllError(colors: seq<int>, orig: int, piece: int)
    requires |colors| == 64 && IsSquare(orig) && Pawn <= piece <= King
    ensures GenAll(colors, orig, piece).IndexError? <==>
      exists j :: 0 <= j < DirectionCount(piece) && GenRay(colors, orig, orig, Direction(piece, j), piece).IndexError?
    ensures GenAll(colors, orig, piece).IndexError? ==> piece == King
  {
    var os := RayOutcomes(colors, orig, piece);
    ConcatAllError(os);
    if GenAll(colors, orig, piece).IndexError? {
      var j :| 0 <= j < |os| && os[j].IndexError?;
      GenRayError(colors, orig, orig, Direction(piece, j), piece);
    }
  }

  /** When the generator succeeds, it yields exactly the squares some of its
      directions reach in the sense of GenReaches. */
  lemma GenAllReach(colors: seq<int>, orig: int, piece: int, x: int)
    requires |colors| == 64 && IsSquare(orig) && Pawn <= piece <= King
    requires GenAll(colors, orig, piece).Squares?
    ensures x in GenAll(colors, orig, piece).list <==>
      exists j: nat, k: nat :: j < DirectionCount(piece) && GenReaches(colors, orig, orig, Direction(piece, j), piece, k, x)
  {
    var os := RayOutcomes(colors, orig, piece);
    ConcatAllMembers(os, x);
    if x in GenAll(colors, orig, piece).list {
      var j :| 0 <= j < |os| && x in os[j].list;
      GenRayReach(colors, orig, orig, Direction(piece, j), piece, x);
      var k: nat :| GenReaches(colors, orig, orig, Direction(piece, j), piece, k, x);
      assert j < DirectionCount(piece) && GenReaches(colors, orig, orig, Direction(piece, j), piece, k, x);
    }
    if j: nat, k: nat :| j < DirectionCount(piece) && GenReaches(colors, orig, orig, Direction(piece, j), piece, k, x) {
      GenRayReach(colors, orig, orig, Direction(piece, j), piece, x);
      assert x in os[j].list;
    }
  }

  /** The inner `while expanding` loop of `allowed_moves`: the walk from
      `orig` in direction `d`, over the board's colour array. */
  method GenWalk(orig: int, d: int, piece: int, colors: array<int>) returns (out: Outcome)
    requires colors.Length == 64 && IsSquare(orig) && IsRayStep(d) && 0 <= piece
    ensures out == GenRay(colors[..], orig, orig, d, piece)
  {
    ghost var C := colors[..];
    var moves: seq<int> := [];
    var idx := orig;
    var expanding := true;
    while expanding
      invariant IsSquare(idx)
      invariant Append(moves, if expanding then GenRay(C, orig, idx, d, piece) else Squares([]))
                == GenRay(C, orig, orig, d, piece)
      decreases expanding, if d > 0 then 120 - CellOf(idx) else CellOf(idx)
    {
      StepIsTableLookup(idx, d);
      var next := Mailbox[Mailbox64[idx] + d];
      if next == -1 {
        break;
      }
      ghost var rest := GenRay(C, orig, idx, d, piece);
      if colors[next] >= 0 {
        if colors[orig] != colors[next] {
          // an enemy piece: append it and keep walking
          assert rest == Prepend(next, GenRay(C, orig, next, d, piece));
          AppendPrepend(moves, next, GenRay(C, orig, next, d, piece));
          moves := moves + [next];
        } else {
          assert rest == Squares([]);
          expanding := false;
        }
      } else {
        if piece >= |GenSlide| {
          assert rest == IndexError;
        }
        moves := moves + [next];
        if piece >= |GenSlide| {
          // `slide[piece]` is past the end of the list
          return IndexError;
        }
        if !GenSlide[piece] {
          assert rest == Squares([next]);
          expanding := false;
        } else {
          assert rest == Prepend(next, GenRay(C, orig, next, d, piece));
          AppendPrepend(moves[..|moves| - 1], next, GenRay(C, orig, next, d, piece));
          assert moves[..|moves| - 1] + [next] == moves;
        }
      }
      idx := next;
    }
    out := Squares(moves);
  }

  /** `MoveGenerator.allowed_moves` over the board's colour array. A pawn
      gets no destinations; every other piece gets the walks of its
      directions in order, or the IndexError of the first walk that reads
      past the slide list. */
  method AllowedMoves(orig: int, piece: int, colors: array<int>) returns (out: Outcome)
    requires colors.Length == 64 && IsSquare(orig) && Pawn <= piece <= King
    ensures piece == Pawn ==> out == Squares([])
    ensures piece != Pawn ==> out == GenAll(colors[..], orig, piece)
  {
    var moves: seq<int> := [];
    if piece != Pawn {
      ghost var rays := RayOutcomes(colors[..], orig, piece);
      OffsetsRow(piece);
      var row := Offsets[piece];
      assert row.0 == DirectionCount(piece) && |row.1| == 8;
      for i := 0 to row.0
        invariant Append(moves, ConcatAll(rays[i..])) == ConcatAll(rays)
      {
        var d := row.1[i];
        assert d == Direction(piece, i);
        var ray := GenWalk(orig, d, piece, colors);
        assert rays[i..][1..] == rays[i + 1..];
        assert ConcatAll(rays[i..]) == Concat(ray, ConcatAll(rays[i + 1..]));
        if ray.IndexError? {
          return IndexError;
        }
        AppendConcat(moves, ray.list, ConcatAll(rays[i + 1..]));
        moves := moves + ray.list;
      }
      assert rays[|rays|..] == [];
    }
    out := Squares(moves);
  }
}

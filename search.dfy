/** The depth-limited minimax search of search.py. The game it searches is
    given as a finite tree: a position has a static evaluation and, in the
    order the legal-move generator enumerates them, its legal moves with the
    position each move leads to. Scores are integers extended with the two
    infinities the source starts its loops from. */
module Search {

  // ------------------------------------------------------------- scores

  datatype Score = NegInf | Fin(v: int) | PosInf

  /** The strict order on scores, as `<` orders them in the source: the
      infinities are below and above every integer, and neither is below
      itself. */
  predicate Below(a: Score, b: Score) {
    match (a, b)
    case (NegInf, NegInf) => false
    case (NegInf, _) => true
    case (Fin(x), Fin(y)) => x < y
    case (Fin(_), PosInf) => true
    case (_, _) => false
  }

  predicate AtMost(a: Score, b: Score) {
    a == b || Below(a, b)
  }

  /** Below is a strict total order. */
  lemma BelowTotalOrder(a: Score, b: Score, c: Score)
    ensures !Below(a, a)
    ensures Below(a, b) && Below(b, c) ==> Below(a, c)
    ensures Below(a, b) || a == b || Below(b, a)
    ensures !(Below(a, b) && Below(b, a))
  {
  }

  // ---------------------------------------------------------- the game

  /** A move as the source writes it: (origin, destination). */
  type Move = (int, int)

  /** The move the search reports when it has none. */
  const NoMove: Move := (-1, -1)

  /** A position: its static evaluation and its legal moves in enumeration
      order, each with the position it leads to. */
  datatype Game = Node(eval: int, branches: seq<Branch>)
  datatype Branch = Branch(move: Move, next: Game)

  // ---------------------------------------------- the values of the search

  /** What `maxi(depth)` returns from position `g`. */
  function MaxiValue(g: Game, depth: nat): (r: (Score, Move))
    decreases depth, 1, 0
  {
    if depth == 0 then (Fin(g.eval), NoMove)
    else MaxOver(g.branches, depth, |g.branches|)
  }

  /** What `mini(depth)` returns from position `g`. */
  function MiniValue(g: Game, depth: nat): (r: (Score, Move))
    decreases depth, 1, 0
  {
    if depth == 0 then (Fin(-g.eval), NoMove)
    else MinOver(g.branches, depth, |g.branches|)
  }

  /** The loop of `maxi` after the first `n` moves: the best score so far
      and its move, replaced only by a strictly better score. */
  function MaxOver(bs: seq<Branch>, depth: nat, n: nat): (r: (Score, Move))
    requires 0 < depth && n <= |bs|
    decreases depth, 0, n
  {
    if n == 0 then (NegInf, NoMove)
    else
      var best := MaxOver(bs, depth, n - 1);
      var score := MiniValue(bs[n - 1].next, depth - 1).0;
      if Below(best.0, score) then (score, bs[n - 1].move) else best
  }

  /** The loop of `mini` after the first `n` moves. */
  function MinOver(bs: seq<Branch>, depth: nat, n: nat): (r: (Score, Move))
    requires 0 < depth && n <= |bs|
    decreases depth, 0, n
  {
    if n == 0 then (PosInf, NoMove)
    else
      var best := MinOver(bs, depth, n - 1);
      var score := MaxiValue(bs[n - 1].next, depth - 1).0;
      if Below(score, best.0) then (score, bs[n - 1].move) else best
  }

  // ------------------------------------------------------ properties

  /** At depth 0 `maxi` returns the static evaluation and `mini` its
      negation, both with no move. */
  lemma DepthZero(g: Game)
    ensures MaxiValue(g, 0) == (Fin(g.eval), NoMove)
    ensures MiniValue(g, 0) == (Fin(-g.eval), NoMove)
  {
  }

  /** Without legal moves `maxi` returns minus infinity and `mini` plus
      infinity, both with no move. */
  lemma NoLegalMoves(g: Game, depth: nat)
    requires 0 < depth && |g.branches| == 0
    ensures MaxiValue(g, depth) == (NegInf, NoMove)
    ensures MiniValue(g, depth) == (PosInf, NoMove)
  {
  }

  /** The score `maxi` computes over the first `n` moves is at least the
      score of each of them, and it is either minus infinity with no move
      or the score of the first of them that reaches it, reported with that
      move. */
  lemma {:induction false} MaxOverBest(bs: seq<Branch>, depth: nat, n: nat)
    requires 0 < depth && n <= |bs|
    ensures var r := MaxOver(bs, depth, n);
      && (forall i :: 0 <= i < n ==> AtMost(MiniValue(bs[i].next, depth - 1).0, r.0))
      && (r.0 == NegInf ==> r.1 == NoMove)
      && (r.0 != NegInf ==> exists i :: 0 <= i < n && FirstMaxAt(bs, depth, i, r))
    decreases n
  {
    if n > 0 {
      MaxOverBest(bs, depth, n - 1);
      var best := MaxOver(bs, depth, n - 1);
      var score := MiniValue(bs[n - 1].next, depth - 1).0;
      var r := MaxOver(bs, depth, n);
      forall i | 0 <= i < n ensures AtMost(MiniValue(bs[i].next, depth - 1).0, r.0) {
        if i < n - 1 && Below(best.0, score) {
          BelowTotalOrder(MiniValue(bs[i].next, depth - 1).0, best.0, score);
        }
        if i == n - 1 && !Below(best.0, score) {
          BelowTotalOrder(score, best.0, score);
        }
      }
      if r.0 != NegInf {
        if Below(best.0, score) {
          forall j | 0 <= j < n - 1 ensures Below(MiniValue(bs[j].next, depth - 1).0, r.0) {
            BelowTotalOrder(MiniValue(bs[j].next, depth - 1).0, best.0, score);
          }
          assert FirstMaxAt(bs, depth, n - 1, r);
        } else {
          var i :| 0 <= i < n - 1 && FirstMaxAt(bs, depth, i, best);
          assert FirstMaxAt(bs, depth, i, r);
        }
      }
    }
  }

  /** Child `i` scores `r.0` for `maxi`, the move reported is its move, and
      every earlier child scores strictly less. */
  ghost predicate FirstMaxAt(bs: seq<Branch>, depth: nat, i: int, r: (Score, Move))
    requires 0 < depth && 0 <= i < |bs|
  {
    && MiniValue(bs[i].next, depth - 1).0 == r.0
    && r.1 == bs[i].move
    && forall j :: 0 <= j < i ==> Below(MiniValue(bs[j].next, depth - 1).0, r.0)
  }

  /** Child `i` scores `r.0` for `mini`, the move reported is its move, and
      every earlier child scores strictly more. */
  ghost predicate FirstMinAt(bs: seq<Branch>, depth: nat, i: int, r: (Score, Move))
    requires 0 < depth && 0 <= i < |bs|
  {
    && MaxiValue(bs[i].next, depth - 1).0 == r.0
    && r.1 == bs[i].move
    && forall j :: 0 <= j < i ==> Below(r.0, MaxiValue(bs[j].next, depth - 1).0)
  }

  /** The mirror image of MaxOverBest for `mini`. */
  lemma {:induction false} MinOverBest(bs: seq<Branch>, depth: nat, n: nat)
    requires 0 < depth && n <= |bs|
    ensures var r := MinOver(bs, depth, n);
      && (forall i :: 0 <= i < n ==> AtMost(r.0, MaxiValue(bs[i].next, depth - 1).0))
      && (r.0 == PosInf ==> r.1 == NoMove)
      && (r.0 != PosInf ==> exists i :: 0 <= i < n && FirstMinAt(bs, depth, i, r))
    decreases n
  {
    if n > 0 {
      MinOverBest(bs, depth, n - 1);
      var best := MinOver(bs, depth, n - 1);
      var score := MaxiValue(bs[n - 1].next, depth - 1).0;
      var r := MinOver(bs, depth, n);
      forall i | 0 <= i < n ensures AtMost(r.0, MaxiValue(bs[i].next, depth - 1).0) {
        if i < n - 1 && Below(score, best.0) {
          BelowTotalOrder(score, best.0, MaxiValue(bs[i].next, depth - 1).0);
        }
        if i == n - 1 && !Below(score, best.0) {
          BelowTotalOrder(score, best.0, score);
        }
      }
      if r.0 != PosInf {
        if Below(score, best.0) {
          forall j | 0 <= j < n - 1 ensures Below(r.0, MaxiValue(bs[j].next, depth - 1).0) {
            BelowTotalOrder(score, best.0, MaxiValue(bs[j].next, depth - 1).0);
          }
          assert FirstMinAt(bs, depth, n - 1, r);
        } else {
          var i :| 0 <= i < n - 1 && FirstMinAt(bs, depth, i, best);
          assert FirstMinAt(bs, depth, i, r);
        }
      }
    }
  }

  /** `maxi` scores at least every child's `mini(depth - 1)`; unless its
      score is minus infinity (then with no move) it equals the score of the
      first child reaching it, reported with that child's move, so ties go
      to the first move in enumeration order. */
  lemma MaxiBest(g: Game, depth: nat)
    requires 0 < depth
    ensures var r := MaxiValue(g, depth);
      && (forall i :: 0 <= i < |g.branches| ==> AtMost(MiniValue(g.branches[i].next, depth - 1).0, r.0))
      && (r.0 == NegInf ==> r.1 == NoMove)
      && (r.0 != NegInf ==> exists i :: 0 <= i < |g.branches| && FirstMaxAt(g.branches, depth, i, r))
  {
    MaxOverBest(g.branches, depth, |g.branches|);
  }

  /** `mini` scores at most every child's `maxi(depth - 1)`; unless its score
      is plus infinity (then with no move) it equals the score of the first
      child reaching it, reported with that child's move. */
  lemma MiniBest(g: Game, depth: nat)
    requires 0 < depth
    ensures var r := MiniValue(g, depth);
      && (forall i :: 0 <= i < |g.branches| ==> AtMost(r.0, MaxiValue(g.branches[i].next, depth - 1).0))
      && (r.0 == PosInf ==> r.1 == NoMove)
      && (r.0 != PosInf ==> exists i :: 0 <= i < |g.branches| && FirstMinAt(g.branches, depth, i, r))
  {
    MinOverBest(g.branches, depth, |g.branches|);
  }

  /** With at least one legal move whose `mini` score is not minus infinity,
      `maxi` reports a real move: one of the legal moves. */
  lemma MaxiPicksLegalMove(g: Game, depth: nat, i: int)
    requires 0 < depth && 0 <= i < |g.branches| && MiniValue(g.branches[i].next, depth - 1).0 != NegInf
    ensures exists j :: 0 <= j < |g.branches| && MaxiValue(g, depth).1 == g.branches[j].move
  {
    MaxiBest(g, depth);
  }

  // ------------------------------------------------- the imperative search

  /** The game the search walks: the current position and the positions
      left by the moves played so far, most recent last. */
  class GameModel {
    var position: Game
    var history: seq<Game>

    constructor (start: Game)
      ensures position == start && history == []
    {
      position := start;
      history := [];
    }

    /** `eval_board_shannon`. */
    function Eval(): (e: int)
      reads this
      ensures e == position.eval
    {
      position.eval
    }

    /** `generate_legal_moves`: the legal moves of the current position, in
        enumeration order. */
    method LegalMoves() returns (moves: seq<Move>)
      ensures |moves| == |position.branches|
      ensures forall i :: 0 <= i < |moves| ==> moves[i] == position.branches[i].move
    {
      var bs := position.branches;
      moves := seq(|bs|, i requires 0 <= i < |bs| => bs[i].move);
    }

    /** `move_piece` for the legal move at index `i`: the old position is
        pushed onto the history. */
    method MovePiece(i: int)
      requires 0 <= i < |position.branches|
      modifies this
      ensures position == old(position.branches[i].next)
      ensures history == old(history) + [old(position)]
    {
      history := history + [position];
      position := position.branches[i].next;
    }

    /** `unmove_piece`: back to the position the last move left. */
    method UnmovePiece()
      requires |history| > 0
      modifies this
      ensures position == old(history[|history| - 1])
      ensures history == old(history[..|history| - 1])
    {
      position := history[|history| - 1];
      history := history[..|history| - 1];
    }
  }

  /** `MiniMax`: searches the game to a fixed depth. */
  class MiniMax {
    const game: GameModel
    const depth: nat

    constructor (model: GameModel, depth: nat := 4)
      ensures game == model && this.depth == depth
    {
      game := model;
      this.depth := depth;
    }

    /** `search`: the move `maxi` picks at the full depth, with the game
        left where it was. */
    method Search() returns (best: Move)
      modifies game
      ensures best == MaxiValue(old(game.position), depth).1
      ensures game.position == old(game.position) && game.history == old(game.history)
    {
      var r := Maxi(depth);
      best := r.1;
    }

    /** `maxi`: every legal move is played, scored by `mini` one level
        down, and taken back before the next; a strictly better score
        replaces the best so far. */
    method Maxi(d: nat) returns (r: (Score, Move))
      modifies game
      ensures r == MaxiValue(old(game.position), d)
      ensures game.position == old(game.position) && game.history == old(game.history)
      decreases d
    {
      if d == 0 {
        return (Fin(game.Eval()), NoMove);
      }
      ghost var g, h := game.position, game.history;
      var maxScore, maxMove := NegInf, NoMove;
      var legal := game.LegalMoves();
      var i := 0;
      while i < |legal|
        invariant 0 <= i <= |legal| == |g.branches|
        invariant game.position == g && game.history == h
        invariant (maxScore, maxMove) == MaxOver(g.branches, d, i)
        invariant forall j :: 0 <= j < |legal| ==> legal[j] == g.branches[j].move
      {
        game.MovePiece(i);
        var child := Mini(d - 1);
        game.UnmovePiece();
        assert game.history == h;
        if Below(maxScore, child.0) {
          maxScore, maxMove := child.0, legal[i];
        }
        i := i + 1;
      }
      r := (maxScore, maxMove);
    }

    /** `mini`: like `maxi`, scoring each move by `maxi` one level down and
        keeping a strictly smaller score. */
    method Mini(d: nat) returns (r: (Score, Move))
      modifies game
      ensures r == MiniValue(old(game.position), d)
      ensures game.position == old(game.position) && game.history == old(game.history)
      decreases d
    {
      if d == 0 {
        return (Fin(-game.Eval()), NoMove);
      }
      ghost var g, h := game.position, game.history;
      var minScore, minMove := PosInf, NoMove;
      var legal := game.LegalMoves();
      var i := 0;
      while i < |legal|
        invariant 0 <= i <= |legal| == |g.branches|
        invariant game.position == g && game.history == h
        invariant (minScore, minMove) == MinOver(g.branches, d, i)
        invariant forall j :: 0 <= j < |legal| ==> legal[j] == g.branches[j].move
      {
        game.MovePiece(i);
        var child := Maxi(d - 1);
        game.UnmovePiece();
        assert game.history == h;
        if Below(child.0, minScore) {
          minScore, minMove := child.0, legal[i];
        }
        i := i + 1;
      }
      r := (minScore, minMove);
    }
  }
}

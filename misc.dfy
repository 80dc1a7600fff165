/** Shared helpers of the chess engine: colour flip, square/coordinate conversion
    and the code tables that translate between piece codes, names, FEN letters,
    colour names and move-type codes. */
module Misc {

  /** True when no two keys of `m` share a value, so that `m` can be inverted. */
  ghost predicate Injective<K, V>(m: map<K, V>) {
    forall a, b :: a in m && b in m && m[a] == m[b] ==> a == b
  }

  /** The dictionary comprehension `{v: k for k, v in m.items()}` on an
      injective dictionary: every value becomes a key that maps back to its key. */
  function Invert<K, V>(m: map<K, V>): (r: map<V, K>)
    requires Injective(m)
    ensures r.Keys == m.Values
    ensures forall k :: k in m ==> m[k] in r && r[m[k]] == k
    ensures forall v :: v in r ==> r[v] in m && m[r[v]] == v
  {
    var r := map v | v in m.Values :: var k :| k in m && m[k] == v; k;
    assert forall k :: k in m ==> m[k] in r && r[m[k]] == k by {
      forall k | k in m ensures m[k] in r && r[m[k]] == k {
        assert m[k] in m.Values;
      }
    }
    r
  }

  // ---------------------------------------------------------------- colours

  /** Colour codes of the board arrays: -1 marks an empty square. */
  const White := 0
  const Black := 1
  const NoColor := -1

  const BoardColor: map<string, int> := map["w" := White, "b" := Black]

  const ColIntToStr: map<int, string> := Invert(BoardColor)

  /** `player_col ^ 1` on a Python integer: the lowest bit of the two's
      complement representation is flipped and every other bit is kept. */
  function OpponentColor(playerCol: int): (r: int)
    ensures r % 2 != playerCol % 2
    ensures r / 2 == playerCol / 2
  {
    if playerCol % 2 == 0 then playerCol + 1 else playerCol - 1
  }

  /** On the two player colours the flip exchanges White and Black. */
  lemma OpponentColorSwaps()
    ensures OpponentColor(White) == Black && OpponentColor(Black) == White
  {
  }

  /** Flipping twice gives back the original colour, for every integer. */
  lemma OpponentColorInvolution(c: int)
    ensures OpponentColor(OpponentColor(c)) == c
  {
  }

  // ------------------------------------------------------- square numbering

  /** A square number of the 64-entry board arrays. */
  predicate IsSquare(s: int) {
    0 <= s < 64
  }

  /** Row-major square number of (row, col) on a board of `boardDim` columns. */
  function Grid2Continuous(row: int, col: int, boardDim: int := 8): int {
    row * boardDim + col
  }

  /** (row, col) of a square number, with Python's floor division and modulo;
      for a positive divisor they coincide with Dafny's Euclidean operators. */
  function Continuous2Grid(idx: int, boardDim: int := 8): (rc: (int, int))
    requires boardDim > 0
    ensures 0 <= rc.1 < boardDim
  {
    (idx / boardDim, idx % boardDim)
  }

  /** Converting a coordinate with an in-range column to a square and back
      gives the coordinate again, whatever the row. */
  lemma GridRoundTrip(row: int, col: int, boardDim: int)
    requires boardDim > 0 && 0 <= col < boardDim
    ensures Continuous2Grid(Grid2Continuous(row, col, boardDim), boardDim) == (row, col)
  {
    var idx := row * boardDim + col;
    var q, m := idx / boardDim, idx % boardDim;
    assert (q - row) * boardDim == col - m by {
      assert q * boardDim + m == row * boardDim + col;
    }
    if q > row {
      MultipleAtLeastDivisor(q - row, boardDim);
    } else if q < row {
      MultipleAtLeastDivisor(row - q, boardDim);
    }
  }

  /** A positive multiple of a positive number is at least that number. */
  lemma MultipleAtLeastDivisor(k: int, d: int)
    requires k >= 1 && d > 0
    ensures k * d >= d
  {
    assert k * d == (k - 1) * d + d;
  }

  /** Converting a square to a coordinate and back gives the square again. */
  lemma ContinuousRoundTrip(idx: int, boardDim: int)
    requires boardDim > 0
    ensures var rc := Continuous2Grid(idx, boardDim); Grid2Continuous(rc.0, rc.1, boardDim) == idx
  {
  }

  // ------------------------------------------------------------ piece codes

  /** Piece codes of the board arrays: -1 marks an empty square. */
  const Empty := -1
  const Pawn := 1
  const Knight := 2
  const Bishop := 3
  const Rook := 4
  const Queen := 5
  const King := 6

  const PieceTypes: map<int, string> :=
    map[Pawn := "Pawn", Knight := "Knight", Bishop := "Bishop", Rook := "Rook", Queen := "Queen", King := "King"]

  const PieceStrToType: map<string, int> := Invert(PieceTypes)

  /** Each piece name is looked up to the code it was listed under. */
  lemma PieceNamesDecode()
    ensures PieceStrToType.Keys == {"Pawn", "Knight", "Bishop", "Rook", "Queen", "King"}
    ensures PieceStrToType["Pawn"] == Pawn && PieceStrToType["Knight"] == Knight
    ensures PieceStrToType["Bishop"] == Bishop && PieceStrToType["Rook"] == Rook
    ensures PieceStrToType["Queen"] == Queen && PieceStrToType["King"] == King
  {
    assert PieceTypes[Pawn] == "Pawn" && PieceTypes[Knight] == "Knight" && PieceTypes[Bishop] == "Bishop";
    assert PieceTypes[Rook] == "Rook" && PieceTypes[Queen] == "Queen" && PieceTypes[King] == "King";
  }

  /** Board colour names decode to the colour codes and back. */
  lemma ColorNamesRoundTrip()
    ensures ColIntToStr.Keys == {White, Black}
    ensures ColIntToStr[White] == "w" && ColIntToStr[Black] == "b"
    ensures forall name :: name in BoardColor ==> ColIntToStr[BoardColor[name]] == name
    ensures forall c :: c in ColIntToStr ==> BoardColor[ColIntToStr[c]] == c
  {
    assert BoardColor["w"] == White && BoardColor["b"] == Black;
  }

  /** Piece codes and piece names are inverse tables of each other. */
  lemma PieceNamesRoundTrip()
    ensures forall p :: p in PieceTypes ==> PieceStrToType[PieceTypes[p]] == p
    ensures forall name :: name in PieceStrToType ==> PieceTypes[PieceStrToType[name]] == name
  {
  }

  // -------------------------------------------------------------- FEN letters

  /** Lower-case FEN letter of each piece kind (the names are looked up in
      PieceStrToType, whose keys PieceNamesDecode lists). */
  const FenCodec: map<char, int> := (PieceNamesDecode(); map[
    'p' := PieceStrToType["Pawn"],
    'n' := PieceStrToType["Knight"],
    'b' := PieceStrToType["Bishop"],
    'r' := PieceStrToType["Rook"],
    'q' := PieceStrToType["Queen"],
    'k' := PieceStrToType["King"]])

  /** Pieces one to six get the letters "pnbrqk" in order. */
  lemma FenLetters()
    ensures FenCodec.Keys == {'p', 'n', 'b', 'r', 'q', 'k'}
    ensures forall i :: 0 <= i < 6 ==> "pnbrqk"[i] in FenCodec && FenCodec["pnbrqk"[i]] == i + 1
    ensures Injective(FenCodec)
  {
    PieceNamesDecode();
  }

  const FenCodecReverse: map<int, char> := (FenLetters(); Invert(FenCodec))

  /** Every FEN letter survives the trip to its piece code and back, and every
      piece code one to six has a letter. */
  lemma FenRoundTrip()
    ensures FenCodecReverse.Keys == {Pawn, Knight, Bishop, Rook, Queen, King}
    ensures forall l :: l in "pnbrqk" ==> FenCodecReverse[FenCodec[l]] == l
    ensures forall p :: p in FenCodecReverse ==> FenCodec[FenCodecReverse[p]] == p
  {
    FenLetters();
    PieceNamesDecode();
    assert forall l :: l in "pnbrqk" ==> l in FenCodec;
    assert FenCodec.Values == {Pawn, Knight, Bishop, Rook, Queen, King} by {
      assert forall i :: 0 <= i < 6 ==> FenCodec["pnbrqk"[i]] == i + 1;
      assert FenCodec['p'] == 1 && FenCodec['n'] == 2 && FenCodec['b'] == 3;
      assert FenCodec['r'] == 4 && FenCodec['q'] == 5 && FenCodec['k'] == 6;
    }
  }

  // ------------------------------------------------------------ move types

  /** Move-type codes: bit 4 marks a capture, bit 8 a promotion, and the two
      low bits of a promotion select the piece. */
  const MoveDesc: map<int, string> := map[
    0 := "quiet",
    1 := "pawn_double",
    2 := "castle_king",
    3 := "castle_queen",
    4 := "capture",
    5 := "ep_capture",
    8 := "promo_n",
    9 := "promo_b",
    10 := "promo_r",
    11 := "promo_q",
    12 := "promo_capture_n",
    13 := "promo_capture_b",
    14 := "promo_capture_r",
    15 := "promo_capture_q"]

  const MoveTypes: map<string, int> := Invert(MoveDesc)

  /** `sub` occurs somewhere in `s`. */
  predicate Contains(s: string, sub: string) {
    exists i {:trigger s[i..]} :: 0 <= i <= |s| - |sub| && sub <= s[i..]
  }

  /** Bit `bit` (a power of two) is set in the non-negative code `c`. */
  predicate HasBit(c: nat, bit: nat)
    requires bit > 0
  {
    (c / bit) % 2 == 1
  }

  /** Move names and move codes are inverse tables of each other. */
  lemma MoveTypesRoundTrip()
    ensures forall c :: c in MoveDesc ==> MoveTypes[MoveDesc[c]] == c
    ensures forall name :: name in MoveTypes ==> MoveDesc[MoveTypes[name]] == name
  {
  }

  /** The characters of `sub` from index `j` on stand in `s` from index
      `i + j` on, compared one by one. */
  function MatchesAt(s: string, sub: string, i: nat, j: nat): (b: bool)
    requires i + |sub| <= |s| && j <= |sub|
    decreases |sub| - j
  {
    j == |sub| || (s[i + j] == sub[j] && MatchesAt(s, sub, i, j + 1))
  }

  /** Contains, decided by trying each starting position from `i` on. */
  function OccursFrom(s: string, sub: string, i: nat): (b: bool)
    decreases |s| - i
  {
    if i + |sub| > |s| then false else MatchesAt(s, sub, i, 0) || OccursFrom(s, sub, i + 1)
  }

  lemma {:induction false} MatchesAtIsPrefix(s: string, sub: string, i: nat, j: nat)
    requires i + |sub| <= |s| && j <= |sub|
    ensures MatchesAt(s, sub, i, j) <==> forall k :: j <= k < |sub| ==> s[i + k] == sub[k]
    decreases |sub| - j
  {
    if j < |sub| {
      MatchesAtIsPrefix(s, sub, i, j + 1);
    }
  }

  lemma {:induction false} OccursFromIsContains(s: string, sub: string, i: nat)
    ensures OccursFrom(s, sub, i) <==> exists p {:trigger s[p..]} :: i <= p <= |s| - |sub| && sub <= s[p..]
    decreases |s| - i
  {
    if i + |sub| <= |s| {
      OccursFromIsContains(s, sub, i + 1);
      MatchesAtIsPrefix(s, sub, i, 0);
      assert MatchesAt(s, sub, i, 0) <==> sub <= s[i..];
      if p :| i <= p <= |s| - |sub| && sub <= s[p..] {
        if p > i {
          assert i + 1 <= p <= |s| - |sub| && sub <= s[p..];
        }
      }
    }
  }

  /** A match at position `p` makes the search from any `i <= p` succeed. */
  lemma {:induction false} OccursFromWitness(s: string, sub: string, i: nat, p: nat)
    requires i <= p && p + |sub| <= |s| && MatchesAt(s, sub, p, 0)
    ensures OccursFrom(s, sub, i)
    decreases p - i
  {
    if i < p {
      OccursFromWitness(s, sub, i + 1, p);
    }
  }

  /** Bit 8 of a move code is set exactly on the promotion codes, and bit 4
      exactly on the codes whose name mentions a capture. */
  lemma MoveCodeFlags()
    ensures forall c :: c in MoveDesc ==> c >= 0 && (HasBit(c, 8) <==> Contains(MoveDesc[c], "promo_"))
    ensures forall c :: c in MoveDesc ==> c >= 0 && (HasBit(c, 4) <==> Contains(MoveDesc[c], "capture"))
  {
    forall c | c in MoveDesc
      ensures c >= 0 && (HasBit(c, 8) <==> Contains(MoveDesc[c], "promo_"))
      ensures c >= 0 && (HasBit(c, 4) <==> Contains(MoveDesc[c], "capture"))
    {
      OccursFromIsContains(MoveDesc[c], "promo_", 0);
      OccursFromIsContains(MoveDesc[c], "capture", 0);
      if c < 8 {
        MoveCodeFlagsPlain(c);
      } else {
        MoveCodeFlagsPromo(c);
      }
    }
  }

  /** The flags of the codes that do not promote, computed name by name. */
  lemma MoveCodeFlagsPlain(c: int)
    requires c in MoveDesc && c < 8
    ensures c >= 0 && (HasBit(c, 8) <==> OccursFrom(MoveDesc[c], "promo_", 0))
    ensures HasBit(c, 4) <==> OccursFrom(MoveDesc[c], "capture", 0)
  {
    if c == 0 {
      assert MoveDesc[c] == "quiet";
    } else if c == 1 {
      assert MoveDesc[c] == "pawn_double";
    } else if c == 2 {
      assert MoveDesc[c] == "castle_king";
    } else if c == 3 {
      assert MoveDesc[c] == "castle_queen";
    } else if c == 4 {
      assert MoveDesc[c] == "capture";
    } else {
      assert MoveDesc[c] == "ep_capture";
    }
  }

  /** The flags of the promotion codes, computed name by name. */
  lemma MoveCodeFlagsPromo(c: int)
    requires c in MoveDesc && c >= 8
    ensures HasBit(c, 8) <==> OccursFrom(MoveDesc[c], "promo_", 0)
    ensures HasBit(c, 4) <==> OccursFrom(MoveDesc[c], "capture", 0)
  {
    if c == 8 {
      assert MoveDesc[c] == "promo_n";
    } else if c == 9 {
      assert MoveDesc[c] == "promo_b";
    } else if c == 10 {
      assert MoveDesc[c] == "promo_r";
    } else if c == 11 {
      assert MoveDesc[c] == "promo_q";
    } else if c == 12 {
      assert MoveDesc[c] == "promo_capture_n";
      assert MatchesAt(MoveDesc[c], "capture", 6, 0);
      OccursFromWitness(MoveDesc[c], "capture", 0, 6);
    } else if c == 13 {
      assert MoveDesc[c] == "promo_capture_b";
      assert MatchesAt(MoveDesc[c], "capture", 6, 0);
      OccursFromWitness(MoveDesc[c], "capture", 0, 6);
    } else if c == 14 {
      assert MoveDesc[c] == "promo_capture_r";
      assert MatchesAt(MoveDesc[c], "capture", 6, 0);
      OccursFromWitness(MoveDesc[c], "capture", 0, 6);
    } else {
      assert MoveDesc[c] == "promo_capture_q";
      assert MatchesAt(MoveDesc[c], "capture", 6, 0);
      OccursFromWitness(MoveDesc[c], "capture", 0, 6);
    }
  }

  /** The piece a pawn is promoted to, by promotion move code. */
  const MovePromoToPiece: map<int, int> := (PieceNamesDecode(); map[
    8 := PieceStrToType["Knight"],
    9 := PieceStrToType["Bishop"],
    10 := PieceStrToType["Rook"],
    11 := PieceStrToType["Queen"],
    12 := PieceStrToType["Knight"],
    13 := PieceStrToType["Bishop"],
    14 := PieceStrToType["Rook"],
    15 := PieceStrToType["Queen"]])

  /** A promotion code selects knight, bishop, rook or queen by its two low
      bits, so the plain and the capturing variant give the same piece. */
  lemma PromotionPieces()
    ensures MovePromoToPiece.Keys == {8, 9, 10, 11, 12, 13, 14, 15}
    ensures forall c :: 8 <= c < 16 ==> MovePromoToPiece[c] == Knight + c % 4
    ensures forall c :: 8 <= c < 12 ==> MovePromoToPiece[c] == MovePromoToPiece[c + 4]
  {
    PieceNamesDecode();
  }
}

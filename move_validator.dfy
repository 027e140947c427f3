// Jieqi move legality: per-piece geometry over a 10x9 board, check detection
// with the flying-general rule, the self-check filter and the search for a
// position without a legal move.  Face-down pieces move like the piece that
// stands on their square in the fixed starting layout.

module MoveValidator {
  import opened Text
  import opened Types

  /** Row 0 is Black's back rank, row 9 Red's; columns 0..8 are files a..i. */
  type Board = seq<seq<Piece>>

  predicate InGrid(r: int, c: int) { 0 <= r < 10 && 0 <= c < 9 }

  predicate IsBoard(b: Board) {
    |b| == 10 && forall r :: 0 <= r < 10 ==> |b[r]| == 9
  }

  /** initial_board_layout: the standard Xiangqi start, Black on rows 0..4. */
  const InitialLayout: Board := [
    [BlkRook, BlkKnight, BlkBishop, BlkAdvisor, BlkKing, BlkAdvisor, BlkBishop, BlkKnight, BlkRook],
    [Empty, Empty, Empty, Empty, Empty, Empty, Empty, Empty, Empty],
    [Empty, BlkCannon, Empty, Empty, Empty, Empty, Empty, BlkCannon, Empty],
    [BlkPawn, Empty, BlkPawn, Empty, BlkPawn, Empty, BlkPawn, Empty, BlkPawn],
    [Empty, Empty, Empty, Empty, Empty, Empty, Empty, Empty, Empty],
    [Empty, Empty, Empty, Empty, Empty, Empty, Empty, Empty, Empty],
    [RedPawn, Empty, RedPawn, Empty, RedPawn, Empty, RedPawn, Empty, RedPawn],
    [Empty, RedCannon, Empty, Empty, Empty, Empty, Empty, RedCannon, Empty],
    [Empty, Empty, Empty, Empty, Empty, Empty, Empty, Empty, Empty],
    [RedRook, RedKnight, RedBishop, RedAdvisor, RedKing, RedAdvisor, RedBishop, RedKnight, RedRook]]

  /** The starting layout square by square: the back ranks on rows 0 and 9,
      the cannons on rows 2 and 7, the pawns on rows 3 and 6 in the even
      columns; Red on the rows from 5 on. */
  function InitialPiece(r: int, c: int): Piece {
    var red := r >= 5;
    if r == 0 || r == 9 then
      (if c == 0 || c == 8 then (if red then RedRook else BlkRook)
       else if c == 1 || c == 7 then (if red then RedKnight else BlkKnight)
       else if c == 2 || c == 6 then (if red then RedBishop else BlkBishop)
       else if c == 3 || c == 5 then (if red then RedAdvisor else BlkAdvisor)
       else if red then RedKing else BlkKing)
    else if (r == 2 || r == 7) && (c == 1 || c == 7) then (if red then RedCannon else BlkCannon)
    else if (r == 3 || r == 6) && (c == 0 || c == 2 || c == 4 || c == 6 || c == 8) then
      (if red then RedPawn else BlkPawn)
    else Empty
  }

  /** InitialPiece reads the table initial_board_layout. */
  lemma InitialPieceIsLayout(r: int, c: int)
    requires InGrid(r, c)
    ensures InitialPiece(r, c) == InitialLayout[r][c]
  {
    var row := InitialLayout[r];
    if r == 0 || r == 9 {
      assert row[c] == InitialPiece(r, c);
    } else if r == 2 || r == 7 {
      assert row[c] == InitialPiece(r, c);
    } else if r == 3 || r == 6 {
      assert row[c] == InitialPiece(r, c);
    } else {
      assert row == seq(9, _ => Empty);
    }
  }

  function Abs(x: int): nat { if x < 0 then -x else x }

  function Min(x: int, y: int): int { if x < y then x else y }

  function Max(x: int, y: int): int { if x < y then y else x }

  // ---------------------------------------------------------------------------
  // Coordinates

  /** The two-character square name of a grid position ("a9" is row 0, column 0). */
  function CoordString(r: int, c: int): (s: string)
    requires InGrid(r, c)
    ensures |s| == 2
  {
    [('a' as int + c) as char, ('0' as int + 9 - r) as char]
  }

  /** coord_to_pos: column = letter - 'a', row = 9 - digit; (-1, -1) when the
      text is not exactly two characters or names a square off the board. */
  function CoordToPos(coord: string): (pos: (int, int))
    ensures pos == (-1, -1) || InGrid(pos.0, pos.1)
    ensures InGrid(pos.0, pos.1) <==> |coord| == 2 && 'a' <= coord[0] <= 'i' && '0' <= coord[1] <= '9'
    ensures InGrid(pos.0, pos.1) ==> coord == CoordString(pos.0, pos.1)
  {
    if |coord| != 2 then (-1, -1)
    else
      var col := coord[0] as int - 'a' as int;
      var row := 9 - (coord[1] as int - '0' as int);
      if row < 0 || row > 9 || col < 0 || col > 8 then (-1, -1) else (row, col)
  }

  lemma CoordRoundTrip(r: int, c: int)
    requires InGrid(r, c)
    ensures CoordToPos(CoordString(r, c)) == (r, c)
  {
  }

  // ---------------------------------------------------------------------------
  // Piece attributes

  /** get_piece_color: no colour for the empty square and for a face-down piece. */
  function GetPieceColor(p: Piece): (c: Option<Color>)
    ensures c.None? <==> p == Empty || p == Hidden
    ensures c == Some(Red) <==> IsRedPiece(p)
    ensures c == Some(Black) <==> IsBlackPiece(p)
  {
    if p == Empty || p == Hidden then None
    else if Ordinal(RedKing) <= Ordinal(p) <= Ordinal(RedPawn) then Some(Red)
    else Some(Black)
  }

  predicate IsRevealed(p: Piece) { p != Hidden && p != Empty }

  /** get_base_piece_type: a black piece minus 7 in the enumeration. */
  function GetBasePieceType(p: Piece): (base: Piece)
    ensures IsBlackPiece(p) ==>
      IsRedPiece(base) && PieceToChar[base] as int == PieceToChar[p] as int - 32
    ensures !IsBlackPiece(p) ==> base == p
  {
    if Ordinal(BlkKing) <= Ordinal(p) <= Ordinal(BlkPawn) then
      EnumBlocksAligned(p);
      PieceOfOrdinal(Ordinal(p) - 7)
    else p
  }

  /** The side a face-down piece belongs to, from its row: rows 5..9 are Red's. */
  function HiddenOwner(r: int): Color { if r > 4 then Red else Black }

  /** The effective colour of the piece on (r, c): its own colour once face up,
      otherwise the colour of its half of the board. */
  function EffectiveColor(b: Board, r: int, c: int): Color
    requires IsBoard(b) && InGrid(r, c)
  {
    if IsRevealed(b[r][c]) then GetPieceColor(b[r][c]).value else HiddenOwner(r)
  }

  /** The piece whose movement rules apply: a face-down piece moves like the
      piece of the starting layout on its square. */
  function EffectiveRole(b: Board, r: int, c: int): Piece
    requires IsBoard(b) && InGrid(r, c)
  {
    if b[r][c] == Hidden then InitialPiece(r, c) else b[r][c]
  }

  // ---------------------------------------------------------------------------
  // Pieces strictly between two squares

  /** Occupied squares of row r in columns lo .. hi-1. */
  function CountRow(b: Board, r: int, lo: int, hi: int): nat
    requires IsBoard(b) && 0 <= r < 10 && 0 <= lo && hi <= 9
    decreases hi - lo
  {
    if lo >= hi then 0 else CountRow(b, r, lo, hi - 1) + (if b[r][hi - 1] != Empty then 1 else 0)
  }

  /** Occupied squares of column c in rows lo .. hi-1. */
  function CountCol(b: Board, c: int, lo: int, hi: int): nat
    requires IsBoard(b) && 0 <= c < 9 && 0 <= lo && hi <= 10
    decreases hi - lo
  {
    if lo >= hi then 0 else CountCol(b, c, lo, hi - 1) + (if b[hi - 1][c] != Empty then 1 else 0)
  }

  /** count_pieces_between: occupied squares strictly between two squares of a
      row or a column; 0 for squares that share neither. */
  function PiecesBetween(b: Board, r1: int, c1: int, r2: int, c2: int): nat
    requires IsBoard(b) && InGrid(r1, c1) && InGrid(r2, c2)
  {
    if r1 == r2 then CountRow(b, r1, Min(c1, c2) + 1, Max(c1, c2))
    else if c1 == c2 then CountCol(b, c1, Min(r1, r2) + 1, Max(r1, r2))
    else 0
  }

  /** Every square strictly between two squares of a row or column is empty. */
  predicate ClearBetween(b: Board, r1: int, c1: int, r2: int, c2: int)
    requires IsBoard(b) && InGrid(r1, c1) && InGrid(r2, c2)
  {
    && (r1 == r2 ==> forall c :: Min(c1, c2) < c < Max(c1, c2) ==> b[r1][c] == Empty)
    && (r1 != r2 && c1 == c2 ==> forall r :: Min(r1, r2) < r < Max(r1, r2) ==> b[r][c1] == Empty)
  }

  lemma {:induction false} CountRowZero(b: Board, r: int, lo: int, hi: int)
    requires IsBoard(b) && 0 <= r < 10 && 0 <= lo && hi <= 9
    ensures CountRow(b, r, lo, hi) == 0 <==> forall c :: lo <= c < hi ==> b[r][c] == Empty
    decreases hi - lo
  {
    if lo < hi {
      CountRowZero(b, r, lo, hi - 1);
    }
  }

  lemma {:induction false} CountColZero(b: Board, c: int, lo: int, hi: int)
    requires IsBoard(b) && 0 <= c < 9 && 0 <= lo && hi <= 10
    ensures CountCol(b, c, lo, hi) == 0 <==> forall r :: lo <= r < hi ==> b[r][c] == Empty
    decreases hi - lo
  {
    if lo < hi {
      CountColZero(b, c, lo, hi - 1);
    }
  }

  /** No piece between two aligned squares exactly when the line between them
      is clear; unaligned squares never have pieces between them. */
  lemma BetweenZeroIffClear(b: Board, r1: int, c1: int, r2: int, c2: int)
    requires IsBoard(b) && InGrid(r1, c1) && InGrid(r2, c2)
    ensures PiecesBetween(b, r1, c1, r2, c2) == 0 <==> ClearBetween(b, r1, c1, r2, c2)
    ensures r1 != r2 && c1 != c2 ==> PiecesBetween(b, r1, c1, r2, c2) == 0
  {
    if r1 == r2 {
      CountRowZero(b, r1, Min(c1, c2) + 1, Max(c1, c2));
    } else if c1 == c2 {
      CountColZero(b, c1, Min(r1, r2) + 1, Max(r1, r2));
    }
  }

  /** count_pieces_between, with its counter loop. */
  method CountPiecesBetween(r1: int, c1: int, r2: int, c2: int, b: Board) returns (count: nat)
    requires IsBoard(b) && InGrid(r1, c1) && InGrid(r2, c2)
    ensures count == PiecesBetween(b, r1, c1, r2, c2)
  {
    count := 0;
    if r1 == r2 {
      var c := Min(c1, c2) + 1;
      while c < Max(c1, c2)
        invariant Min(c1, c2) + 1 <= c <= Max(Max(c1, c2), Min(c1, c2) + 1)
        invariant count == CountRow(b, r1, Min(c1, c2) + 1, c)
      {
        if b[r1][c] != Empty { count := count + 1; }
        c := c + 1;
      }
    } else if c1 == c2 {
      var r := Min(r1, r2) + 1;
      while r < Max(r1, r2)
        invariant Min(r1, r2) + 1 <= r <= Max(r1, r2)
        invariant count == CountCol(b, c1, Min(r1, r2) + 1, r)
      {
        if b[r][c1] != Empty { count := count + 1; }
        r := r + 1;
      }
    }
  }

  // ---------------------------------------------------------------------------
  // Movement geometry

  /** The palace of a side: columns 3..5, rows 7..9 for Red and 0..2 otherwise. */
  predicate InPalace(color: Color, r: int, c: int) {
    3 <= c <= 5 && (if color == Red then 7 <= r <= 9 else 0 <= r <= 2)
  }

  /** Whether a square lies beyond the river for the given side. */
  predicate AcrossRiver(color: Color, r: int) {
    (color == Red && r <= 4) || (color == Black && r >= 5)
  }

  /** The geometry of one role, given the mover's effective colour. */
  predicate RoleAllows(b: Board, role: Piece, revealed: bool, color: Color,
                       r1: int, c1: int, r2: int, c2: int)
    requires IsBoard(b) && InGrid(r1, c1) && InGrid(r2, c2)
  {
    var dRow := Abs(r1 - r2);
    var dCol := Abs(c1 - c2);
    match role
    case RedKing =>
      dRow + dCol == 1 && InPalace(color, r2, c2)
    case RedAdvisor =>
      dRow == 1 && dCol == 1 && (revealed || InPalace(color, r2, c2))
    case RedBishop =>
      // the eye is the midpoint of a 2x2 diagonal step
      dRow == 2 && dCol == 2 && b[(r1 + r2) / 2][(c1 + c2) / 2] == Empty &&
      (revealed || !AcrossRiver(color, r2))
    case RedKnight =>
      ((dRow == 2 && dCol == 1) || (dRow == 1 && dCol == 2)) &&
      b[if dRow == 2 then (r1 + r2) / 2 else r1][if dCol == 2 then (c1 + c2) / 2 else c1] == Empty
    case RedRook =>
      !(dRow > 0 && dCol > 0) && PiecesBetween(b, r1, c1, r2, c2) == 0
    case RedCannon =>
      !(dRow > 0 && dCol > 0) &&
      (if b[r2][c2] != Empty then PiecesBetween(b, r1, c1, r2, c2) == 1
       else PiecesBetween(b, r1, c1, r2, c2) == 0)
    case RedPawn =>
      var forward := if color == Red then -1 else 1;
      (r2 - r1 == forward && dCol == 0) || (AcrossRiver(color, r1) && dRow == 0 && dCol == 1)
    case _ => false
  }

  /** is_move_mechanically_valid: the movement rules without regard to check. */
  predicate MechValid(b: Board, r1: int, c1: int, r2: int, c2: int)
    requires IsBoard(b) && InGrid(r1, c1) && InGrid(r2, c2)
  {
    var moving := b[r1][c1];
    var target := b[r2][c2];
    && moving != Empty
    && var color := EffectiveColor(b, r1, c1);
       && !(IsRevealed(target) && GetPieceColor(target) == Some(color))
       && RoleAllows(b, GetBasePieceType(EffectiveRole(b, r1, c1)), IsRevealed(moving), color, r1, c1, r2, c2)
  }

  /** A move never captures a face-up piece of the mover's effective colour. */
  lemma NoOwnCapture(b: Board, r1: int, c1: int, r2: int, c2: int)
    requires IsBoard(b) && InGrid(r1, c1) && InGrid(r2, c2)
    requires MechValid(b, r1, c1, r2, c2) && IsRevealed(b[r2][c2])
    ensures GetPieceColor(b[r2][c2]) != Some(EffectiveColor(b, r1, c1))
  {
  }

  /** King, advisor, elephant and knight geometry: onto a square not held
      by an own face-up piece, each moves exactly in the shape of its rule.
      The eye or leg square must be empty, and the palace and river bounds
      of advisor and elephant bind face-down movers only. */
  lemma ShortRangeGeometry(b: Board, r1: int, c1: int, r2: int, c2: int)
    requires IsBoard(b) && InGrid(r1, c1) && InGrid(r2, c2)
    requires b[r1][c1] != Empty
    requires !(IsRevealed(b[r2][c2]) && GetPieceColor(b[r2][c2]) == Some(EffectiveColor(b, r1, c1)))
    ensures var role := GetBasePieceType(EffectiveRole(b, r1, c1));
      var color := EffectiveColor(b, r1, c1);
      && (role == RedKing ==> (MechValid(b, r1, c1, r2, c2) <==>
            Abs(r1 - r2) + Abs(c1 - c2) == 1 && 3 <= c2 <= 5 &&
            (if color == Red then 7 <= r2 else r2 <= 2)))
      && (role == RedAdvisor ==> (MechValid(b, r1, c1, r2, c2) <==>
            Abs(r1 - r2) == 1 && Abs(c1 - c2) == 1 &&
            (b[r1][c1] == Hidden ==> InPalace(color, r2, c2))))
      && (role == RedBishop ==> (MechValid(b, r1, c1, r2, c2) <==>
            Abs(r1 - r2) == 2 && Abs(c1 - c2) == 2 && b[(r1 + r2) / 2][(c1 + c2) / 2] == Empty &&
            (b[r1][c1] == Hidden ==> (color == Red ==> r2 >= 5) && (color == Black ==> r2 <= 4))))
      && (role == RedKnight ==> (MechValid(b, r1, c1, r2, c2) <==>
            Abs(r1 - r2) * Abs(c1 - c2) == 2 &&
            b[if Abs(r1 - r2) == 2 then (r1 + r2) / 2 else r1][if Abs(c1 - c2) == 2 then (c1 + c2) / 2 else c1] == Empty))
  {
    var role := GetBasePieceType(EffectiveRole(b, r1, c1));
    var revealed := IsRevealed(b[r1][c1]);
    var color := EffectiveColor(b, r1, c1);
    MechValidByRole(b, r1, c1, r2, c2);
    if role == RedKing {
      KingRule(b, role, revealed, color, r1, c1, r2, c2);
    } else if role == RedAdvisor {
      AdvisorRule(b, role, revealed, color, r1, c1, r2, c2);
    } else if role == RedBishop {
      BishopRule(b, role, revealed, color, r1, c1, r2, c2);
    } else if role == RedKnight {
      KnightRule(b, role, revealed, color, r1, c1, r2, c2);
    }
  }

  /** Onto a square not held by an own face-up piece, the movement rules are
      those of the mover's role. */
  lemma MechValidByRole(b: Board, r1: int, c1: int, r2: int, c2: int)
    requires IsBoard(b) && InGrid(r1, c1) && InGrid(r2, c2)
    requires b[r1][c1] != Empty
    requires !(IsRevealed(b[r2][c2]) && GetPieceColor(b[r2][c2]) == Some(EffectiveColor(b, r1, c1)))
    ensures MechValid(b, r1, c1, r2, c2) <==>
      RoleAllows(b, GetBasePieceType(EffectiveRole(b, r1, c1)), IsRevealed(b[r1][c1]),
                 EffectiveColor(b, r1, c1), r1, c1, r2, c2)
  {
  }

  lemma KingRule(b: Board, role: Piece, revealed: bool, color: Color, r1: int, c1: int, r2: int, c2: int)
    requires IsBoard(b) && InGrid(r1, c1) && InGrid(r2, c2) && role == RedKing
    ensures RoleAllows(b, role, revealed, color, r1, c1, r2, c2) <==>
      Abs(r1 - r2) + Abs(c1 - c2) == 1 && 3 <= c2 <= 5 && (if color == Red then 7 <= r2 else r2 <= 2)
  {
  }

  lemma AdvisorRule(b: Board, role: Piece, revealed: bool, color: Color, r1: int, c1: int, r2: int, c2: int)
    requires IsBoard(b) && InGrid(r1, c1) && InGrid(r2, c2) && role == RedAdvisor
    ensures RoleAllows(b, role, revealed, color, r1, c1, r2, c2) <==>
      Abs(r1 - r2) == 1 && Abs(c1 - c2) == 1 && (!revealed ==> InPalace(color, r2, c2))
  {
  }

  lemma BishopRule(b: Board, role: Piece, revealed: bool, color: Color, r1: int, c1: int, r2: int, c2: int)
    requires IsBoard(b) && InGrid(r1, c1) && InGrid(r2, c2) && role == RedBishop
    ensures RoleAllows(b, role, revealed, color, r1, c1, r2, c2) <==>
      Abs(r1 - r2) == 2 && Abs(c1 - c2) == 2 && b[(r1 + r2) / 2][(c1 + c2) / 2] == Empty &&
      (!revealed ==> (color == Red ==> r2 >= 5) && (color == Black ==> r2 <= 4))
  {
  }

  lemma KnightRule(b: Board, role: Piece, revealed: bool, color: Color, r1: int, c1: int, r2: int, c2: int)
    requires IsBoard(b) && InGrid(r1, c1) && InGrid(r2, c2) && role == RedKnight
    ensures RoleAllows(b, role, revealed, color, r1, c1, r2, c2) <==>
      Abs(r1 - r2) * Abs(c1 - c2) == 2 &&
      b[if Abs(r1 - r2) == 2 then (r1 + r2) / 2 else r1][if Abs(c1 - c2) == 2 then (c1 + c2) / 2 else c1] == Empty
  {
  }

  /** Rook and cannon lines: a rook needs a clear line, a cannon a clear line
      to an empty square and exactly one piece in between to any occupied
      square, face-down ones included. */
  lemma LineGeometry(b: Board, r1: int, c1: int, r2: int, c2: int)
    requires IsBoard(b) && InGrid(r1, c1) && InGrid(r2, c2)
    requires b[r1][c1] != Empty
    requires !(IsRevealed(b[r2][c2]) && GetPieceColor(b[r2][c2]) == Some(EffectiveColor(b, r1, c1)))
    requires r1 == r2 || c1 == c2
    ensures GetBasePieceType(EffectiveRole(b, r1, c1)) == RedRook ==>
      (MechValid(b, r1, c1, r2, c2) <==> ClearBetween(b, r1, c1, r2, c2))
    ensures GetBasePieceType(EffectiveRole(b, r1, c1)) == RedCannon && b[r2][c2] == Empty ==>
      (MechValid(b, r1, c1, r2, c2) <==> ClearBetween(b, r1, c1, r2, c2))
    ensures GetBasePieceType(EffectiveRole(b, r1, c1)) == RedCannon && b[r2][c2] != Empty ==>
      (MechValid(b, r1, c1, r2, c2) <==> PiecesBetween(b, r1, c1, r2, c2) == 1)
  {
    var role := GetBasePieceType(EffectiveRole(b, r1, c1));
    assert MechValid(b, r1, c1, r2, c2) <==>
      RoleAllows(b, role, IsRevealed(b[r1][c1]), EffectiveColor(b, r1, c1), r1, c1, r2, c2);
    BetweenZeroIffClear(b, r1, c1, r2, c2);
  }

  /** A pawn moves exactly one row forward, or one column sideways once it
      has crossed the river, onto any square not held by an own face-up
      piece; it never moves backward or diagonally. */
  lemma PawnGeometry(b: Board, r1: int, c1: int, r2: int, c2: int)
    requires IsBoard(b) && InGrid(r1, c1) && InGrid(r2, c2)
    requires b[r1][c1] != Empty
    requires !(IsRevealed(b[r2][c2]) && GetPieceColor(b[r2][c2]) == Some(EffectiveColor(b, r1, c1)))
    requires GetBasePieceType(EffectiveRole(b, r1, c1)) == RedPawn
    ensures var color := EffectiveColor(b, r1, c1);
      var forward := if color == Red then -1 else 1;
      MechValid(b, r1, c1, r2, c2) <==>
      (r2 == r1 + forward && c2 == c1) ||
      (r2 == r1 && Abs(c1 - c2) == 1 && AcrossRiver(color, r1))
  {
  }

  // ---------------------------------------------------------------------------
  // Locating a king

  /** The first square holding p in row-major order from (r, c). */
  function FindFrom(b: Board, p: Piece, r: int, c: int): (pos: Option<(int, int)>)
    requires IsBoard(b) && 0 <= r <= 10 && 0 <= c <= 9
    ensures pos.Some? ==> InGrid(pos.value.0, pos.value.1) && b[pos.value.0][pos.value.1] == p
    ensures pos.Some? ==> (pos.value.0 > r || (pos.value.0 == r && pos.value.1 >= c))
    ensures pos.Some? ==> forall r', c' ::
      (InGrid(r', c') && (r' > r || (r' == r && c' >= c)) &&
       (r' < pos.value.0 || (r' == pos.value.0 && c' < pos.value.1))) ==> b[r'][c'] != p
    ensures pos.None? ==> forall r', c' :: InGrid(r', c') && (r' > r || (r' == r && c' >= c)) ==> b[r'][c'] != p
    decreases 10 - r, 9 - c
  {
    if r == 10 then None
    else if c == 9 then FindFrom(b, p, r + 1, 0)
    else if b[r][c] == p then Some((r, c))
    else FindFrom(b, p, r, c + 1)
  }

  function KingOf(color: Color): Piece { if color == Red then RedKing else BlkKing }

  function Opponent(color: Color): Color { if color == Red then Black else Red }

  /** find_king: the first square, in row-major order, holding that side's king. */
  function KingSquare(b: Board, color: Color): (pos: Option<(int, int)>)
    requires IsBoard(b)
    ensures pos.Some? ==> InGrid(pos.value.0, pos.value.1)
  {
    FindFrom(b, KingOf(color), 0, 0)
  }

  /** A king that stands on exactly one square is found there. */
  lemma KingSquareUnique(b: Board, color: Color, r: int, c: int)
    requires IsBoard(b) && InGrid(r, c) && b[r][c] == KingOf(color)
    requires forall r', c' :: InGrid(r', c') && (r', c') != (r, c) ==> b[r'][c'] != KingOf(color)
    ensures KingSquare(b, color) == Some((r, c))
  {
  }

  method FindKing(color: Color, b: Board) returns (pos: Option<(int, int)>)
    requires IsBoard(b)
    ensures pos == KingSquare(b, color)
    ensures pos.Some? ==> b[pos.value.0][pos.value.1] == KingOf(color)
    ensures pos.None? <==> forall r, c :: InGrid(r, c) ==> b[r][c] != KingOf(color)
  {
    var king := if color == Red then RedKing else BlkKing;
    for r := 0 to 10
      invariant FindFrom(b, king, r, 0) == FindFrom(b, king, 0, 0)
    {
      for c := 0 to 9
        invariant FindFrom(b, king, r, c) == FindFrom(b, king, 0, 0)
      {
        if b[r][c] == king {
          return Some((r, c));
        }
      }
    }
    return None;
  }

  // ---------------------------------------------------------------------------
  // Check

  /** The face-up piece on (r, c) belongs to opp and attacks (kr, kc): an
      opposing king by an open shared column at any distance, any other piece
      by an ordinary move. */
  predicate Attacks(b: Board, r: int, c: int, kr: int, kc: int, opp: Color)
    requires IsBoard(b) && InGrid(r, c) && InGrid(kr, kc)
  {
    var p := b[r][c];
    && IsRevealed(p)
    && GetPieceColor(p) == Some(opp)
    && if GetBasePieceType(p) == RedKing then c == kc && PiecesBetween(b, r, c, kr, kc) == 0
       else MechValid(b, r, c, kr, kc)
  }

  /** is_in_check: the king is missing, or a face-up opposing piece attacks it. */
  ghost predicate InCheck(color: Color, b: Board)
    requires IsBoard(b)
  {
    match KingSquare(b, color)
    case None => true
    case Some((kr, kc)) => Attacked(b, kr, kc, Opponent(color))
  }

  /** A side whose king has gone counts as being in check. */
  lemma MissingKingIsCheck(b: Board, color: Color)
    requires IsBoard(b)
    requires forall r, c :: InGrid(r, c) ==> b[r][c] != KingOf(color)
    ensures InCheck(color, b)
  {
  }

  /** The flying general: an opposing face-up king on the same column with
      nothing in between gives check, however far away it stands. */
  lemma FlyingGeneral(b: Board, color: Color, r: int)
    requires IsBoard(b) && 0 <= r < 10
    requires KingSquare(b, color).Some?
    requires var (kr, kc) := KingSquare(b, color).value;
      b[r][kc] == KingOf(Opponent(color)) && ClearBetween(b, r, kc, kr, kc)
    ensures InCheck(color, b)
  {
    var (kr, kc) := KingSquare(b, color).value;
    BetweenZeroIffClear(b, r, kc, kr, kc);
    KingAttacksAlongColumn(b, r, kr, kc, Opponent(color));
  }

  /** A face-up king of opp with nothing between it and (kr, kc) on their
      shared column attacks that square. */
  lemma KingAttacksAlongColumn(b: Board, r: int, kr: int, kc: int, opp: Color)
    requires IsBoard(b) && 0 <= r < 10 && InGrid(kr, kc) && opp != NoColor
    requires b[r][kc] == KingOf(opp) && PiecesBetween(b, r, kc, kr, kc) == 0
    ensures Attacks(b, r, kc, kr, kc, opp)
  {
    var p := b[r][kc];
    assert IsRevealed(p) && GetPieceColor(p) == Some(opp) && GetBasePieceType(p) == RedKing;
  }

  /** Face-down pieces never give check. */
  lemma HiddenPiecesDoNotAttack(b: Board, r: int, c: int, kr: int, kc: int, opp: Color)
    requires IsBoard(b) && InGrid(r, c) && InGrid(kr, kc) && b[r][c] == Hidden
    ensures !Attacks(b, r, c, kr, kc, opp)
  {
  }

  /** The per-square test of is_in_check's scan. */
  method AttackTest(b: Board, r: int, c: int, kr: int, kc: int, opp: Color) returns (hit: bool)
    requires IsBoard(b) && InGrid(r, c) && InGrid(kr, kc)
    ensures hit == Attacks(b, r, c, kr, kc, opp)
  {
    var p := b[r][c];
    if !IsRevealed(p) || GetPieceColor(p) != Some(opp) {
      return false;
    }
    if GetBasePieceType(p) == RedKing {
      if c != kc {
        return false;
      }
      var between := CountPiecesBetween(r, c, kr, kc, b);
      return between == 0;
    }
    return MechValid(b, r, c, kr, kc);
  }

  /** Some face-up piece of opp attacks (kr, kc). */
  ghost predicate Attacked(b: Board, kr: int, kc: int, opp: Color)
    requires IsBoard(b) && InGrid(kr, kc)
  {
    exists r, c :: InGrid(r, c) && Attacks(b, r, c, kr, kc, opp)
  }

  /** The inner loop of is_in_check: one row of the board. */
  method ScanRow(b: Board, r: int, kr: int, kc: int, opp: Color) returns (found: bool)
    requires IsBoard(b) && InGrid(kr, kc) && 0 <= r < 10
    ensures found <==> exists c :: 0 <= c < 9 && Attacks(b, r, c, kr, kc, opp)
  {
    for c := 0 to 9
      invariant forall c' :: 0 <= c' < c ==> !Attacks(b, r, c', kr, kc, opp)
    {
      var hit := AttackTest(b, r, c, kr, kc, opp);
      if hit {
        return true;
      }
    }
    return false;
  }

  /** The scan of is_in_check over every square of the board. */
  method ScanAttackers(b: Board, kr: int, kc: int, opp: Color) returns (found: bool)
    requires IsBoard(b) && InGrid(kr, kc)
    ensures found == Attacked(b, kr, kc, opp)
  {
    for r := 0 to 10
      invariant forall r', c :: 0 <= r' < r && 0 <= c < 9 ==> !Attacks(b, r', c, kr, kc, opp)
    {
      var hit := ScanRow(b, r, kr, kc, opp);
      if hit {
        return true;
      }
    }
    return false;
  }

  method IsInCheck(color: Color, b: Board) returns (check: bool)
    requires IsBoard(b)
    ensures check == InCheck(color, b)
  {
    var kingPos := FindKing(color, b);
    if kingPos.None? {
      return true;
    }
    var opp := if color == Red then Black else Red;
    check := ScanAttackers(b, kingPos.value.0, kingPos.value.1, opp);
  }

  // ---------------------------------------------------------------------------
  // The self-check filter and full legality

  /** The board after moving whatever stands on (r1, c1) to (r2, c2). */
  function AfterMove(b: Board, r1: int, c1: int, r2: int, c2: int): (t: Board)
    requires IsBoard(b) && InGrid(r1, c1) && InGrid(r2, c2)
    ensures IsBoard(t)
    ensures t[r1][c1] == Empty
    ensures (r1, c1) != (r2, c2) ==> t[r2][c2] == b[r1][c1]
    ensures forall r, c :: InGrid(r, c) && (r, c) != (r1, c1) && (r, c) != (r2, c2) ==> t[r][c] == b[r][c]
  {
    var t := b[r2 := b[r2][c2 := b[r1][c1]]];
    t[r1 := t[r1][c1 := Empty]]
  }

  /** would_be_in_check_after_move: the move is played on a copy of the board. */
  method WouldBeInCheckAfterMove(r1: int, c1: int, r2: int, c2: int, color: Color, b: Board)
    returns (check: bool)
    requires IsBoard(b) && InGrid(r1, c1) && InGrid(r2, c2)
    ensures check == InCheck(color, AfterMove(b, r1, c1, r2, c2))
  {
    var temp := b;
    temp := temp[r2 := temp[r2][c2 := temp[r1][c1]]];
    temp := temp[r1 := temp[r1][c1 := Empty]];
    check := IsInCheck(color, temp);
  }

  /** The side to move owns the piece on (r, c): by its colour when face up,
      by its row when face down. */
  predicate Owns(b: Board, r: int, c: int, color: Color)
    requires IsBoard(b) && InGrid(r, c)
  {
    b[r][c] != Empty &&
    if IsRevealed(b[r][c]) then GetPieceColor(b[r][c]) == Some(color) else HiddenOwner(r) == color
  }

  /** The move obeys the movement rules and does not leave the mover in check. */
  ghost predicate Escapes(b: Board, color: Color, r1: int, c1: int, r2: int, c2: int)
    requires IsBoard(b) && InGrid(r1, c1) && InGrid(r2, c2)
  {
    MechValid(b, r1, c1, r2, c2) && !InCheck(color, AfterMove(b, r1, c1, r2, c2))
  }

  /** is_move_legal on a move string; only its first four characters are read. */
  ghost predicate MoveLegal(m: string, color: Color, b: Board)
    requires IsBoard(b)
  {
    && |m| >= 4
    && var from := CoordToPos(m[0..2]);
       var to := CoordToPos(m[2..4]);
       && from.0 != -1 && to.0 != -1
       && LegalAt(b, color, from.0, from.1, to.0, to.1)
  }

  /** The side owns the piece on the first square and may move it to the second. */
  ghost predicate LegalAt(b: Board, color: Color, r1: int, c1: int, r2: int, c2: int)
    requires IsBoard(b) && InGrid(r1, c1) && InGrid(r2, c2)
  {
    Owns(b, r1, c1, color) && Escapes(b, color, r1, c1, r2, c2)
  }

  method IsMoveLegal(m: string, color: Color, b: Board) returns (legal: bool)
    requires IsBoard(b)
    ensures legal == MoveLegal(m, color, b)
  {
    if |m| < 4 {
      return false;
    }
    var (r1, c1) := CoordToPos(m[0..2]);
    var (r2, c2) := CoordToPos(m[2..4]);
    if r1 == -1 || r2 == -1 {
      return false;
    }
    var moving := b[r1][c1];
    if moving == Empty {
      return false;
    }
    if IsRevealed(moving) {
      if GetPieceColor(moving) != Some(color) {
        return false;
      }
    } else if HiddenOwner(r1) != color {
      return false;
    }
    if !MechValid(b, r1, c1, r2, c2) {
      return false;
    }
    var check := WouldBeInCheckAfterMove(r1, c1, r2, c2, color, b);
    if check {
      return false;
    }
    return true;
  }

  /** The cases is_move_legal refuses before looking at the geometry. */
  lemma MoveLegalRejects(m: string, color: Color, b: Board)
    requires IsBoard(b)
    ensures |m| < 4 ==> !MoveLegal(m, color, b)
    ensures |m| >= 4 && (CoordToPos(m[0..2]) == (-1, -1) || CoordToPos(m[2..4]) == (-1, -1)) ==>
      !MoveLegal(m, color, b)
    ensures |m| >= 4 && CoordToPos(m[0..2]) != (-1, -1) ==>
      var (r1, c1) := CoordToPos(m[0..2]);
      && (b[r1][c1] == Empty ==> !MoveLegal(m, color, b))
      && (IsRevealed(b[r1][c1]) && GetPieceColor(b[r1][c1]) != Some(color) ==> !MoveLegal(m, color, b))
      && (b[r1][c1] == Hidden && (if r1 > 4 then Red else Black) != color ==> !MoveLegal(m, color, b))
  {
  }

  /** Only the first four characters of a move string matter. */
  lemma MoveLegalReadsFourChars(m: string, color: Color, b: Board)
    requires IsBoard(b) && |m| >= 4
    ensures MoveLegal(m, color, b) == MoveLegal(m[..4], color, b)
  {
    assert m[..4][0..2] == m[0..2];
    assert m[..4][2..4] == m[2..4];
  }

  /** An accepted move leaves the mover out of check once it is played. */
  lemma LegalMoveIsSafe(m: string, color: Color, b: Board)
    requires IsBoard(b) && MoveLegal(m, color, b)
    ensures var (r1, c1) := CoordToPos(m[0..2]);
      var (r2, c2) := CoordToPos(m[2..4]);
      InGrid(r1, c1) && InGrid(r2, c2) && MechValid(b, r1, c1, r2, c2) &&
      !InCheck(color, AfterMove(b, r1, c1, r2, c2))
  {
  }

  // ---------------------------------------------------------------------------
  // No legal move: checkmate or stalemate

  /** No piece the side owns has a move that passes both filters. */
  ghost predicate NoLegalMove(color: Color, b: Board)
    requires IsBoard(b)
  {
    forall r1, c1, r2, c2 :: InGrid(r1, c1) && InGrid(r2, c2) && Owns(b, r1, c1, color) ==>
      !Escapes(b, color, r1, c1, r2, c2)
  }

  /** The ownership test is_checkmate_or_stalemate applies: it treats a
      face-down piece on rows 0..4 as Red's, the opposite of HiddenOwner. */
  predicate OwnsInMateSearch(b: Board, r: int, c: int, color: Color)
    requires IsBoard(b) && InGrid(r, c)
  {
    b[r][c] != Empty &&
    if IsRevealed(b[r][c]) then GetPieceColor(b[r][c]) == Some(color)
    else (if r <= 4 then Red else Black) == color
  }

  /** is_checkmate_or_stalemate as the source states it. */
  ghost predicate NoMoveAsWritten(color: Color, b: Board)
    requires IsBoard(b)
  {
    forall r1, c1, r2, c2 :: InGrid(r1, c1) && InGrid(r2, c2) && OwnsInMateSearch(b, r1, c1, color) ==>
      !Escapes(b, color, r1, c1, r2, c2)
  }

  /** The inner two loops: does the piece on (r1, c1) have a move that
      passes both filters? */
  method PieceHasEscape(color: Color, b: Board, r1: int, c1: int) returns (found: bool)
    requires IsBoard(b) && InGrid(r1, c1)
    ensures found <==> exists r2, c2 :: InGrid(r2, c2) && Escapes(b, color, r1, c1, r2, c2)
  {
    for r2 := 0 to 10
      invariant forall r, c :: 0 <= r < r2 && 0 <= c < 9 ==> !Escapes(b, color, r1, c1, r, c)
    {
      for c2 := 0 to 9
        invariant forall r, c :: (0 <= r < r2 && 0 <= c < 9) || (r == r2 && 0 <= c < c2) ==>
          !Escapes(b, color, r1, c1, r, c)
      {
        if MechValid(b, r1, c1, r2, c2) {
          var check := WouldBeInCheckAfterMove(r1, c1, r2, c2, color, b);
          if !check {
            assert Escapes(b, color, r1, c1, r2, c2);
            return true;
          }
        }
      }
    }
    return false;
  }

  /** is_checkmate_or_stalemate exactly as written (see OwnsInMateSearch). */
  method IsCheckmateOrStalemateAsWritten(color: Color, b: Board) returns (none: bool)
    requires IsBoard(b)
    ensures none == NoMoveAsWritten(color, b)
  {
    for r1 := 0 to 10
      invariant forall r, c, r2, c2 ::
        (0 <= r < r1 && 0 <= c < 9 && InGrid(r2, c2) && OwnsInMateSearch(b, r, c, color)) ==>
        !Escapes(b, color, r, c, r2, c2)
    {
      for c1 := 0 to 9
        invariant forall r, c, r2, c2 ::
          (((0 <= r < r1 && 0 <= c < 9) || (r == r1 && 0 <= c < c1)) && InGrid(r2, c2) && OwnsInMateSearch(b, r, c, color)) ==>
          !Escapes(b, color, r, c, r2, c2)
      {
        var p := b[r1][c1];
        if p != Empty {
          var mine := if IsRevealed(p) then GetPieceColor(p) == Some(color)
                      else (if r1 <= 4 then Red else Black) == color;
          if mine {
            var found := PieceHasEscape(color, b, r1, c1);
            if found {
              return false;
            }
          }
        }
      }
    }
    return true;
  }

  /** The search with the ownership rule of is_move_legal. */
  method IsCheckmateOrStalemate(color: Color, b: Board) returns (none: bool)
    requires IsBoard(b)
    ensures none == NoLegalMove(color, b)
  {
    for r1 := 0 to 10
      invariant forall r, c, r2, c2 ::
        (0 <= r < r1 && 0 <= c < 9 && InGrid(r2, c2) && Owns(b, r, c, color)) ==>
        !Escapes(b, color, r, c, r2, c2)
    {
      for c1 := 0 to 9
        invariant forall r, c, r2, c2 ::
          (((0 <= r < r1 && 0 <= c < 9) || (r == r1 && 0 <= c < c1)) && InGrid(r2, c2) && Owns(b, r, c, color)) ==>
          !Escapes(b, color, r, c, r2, c2)
      {
        var p := b[r1][c1];
        if p != Empty {
          var mine := if IsRevealed(p) then GetPieceColor(p) == Some(color) else HiddenOwner(r1) == color;
          if mine {
            var found := PieceHasEscape(color, b, r1, c1);
            if found {
              return false;
            }
          }
        }
      }
    }
    return true;
  }

  /** The corrected search answers "no legal move" exactly when is_move_legal
      accepts no four-character move string. */
  lemma NoLegalMoveIffNoLegalString(color: Color, b: Board)
    requires IsBoard(b)
    ensures NoLegalMove(color, b) <==> forall m :: |m| == 4 ==> !MoveLegal(m, color, b)
  {
    if NoLegalMove(color, b) {
      forall m | |m| == 4 ensures !MoveLegal(m, color, b) {
        NoLegalMoveRejects(color, b, m);
      }
    } else {
      var m := SomeLegalString(color, b);
    }
  }

  /** A move that passes both filters gives a move string is_move_legal accepts. */
  lemma SomeLegalString(color: Color, b: Board) returns (m: string)
    requires IsBoard(b) && !NoLegalMove(color, b)
    ensures |m| == 4 && MoveLegal(m, color, b)
  {
    var r1, c1, r2, c2 :| InGrid(r1, c1) && InGrid(r2, c2) && Owns(b, r1, c1, color) &&
      Escapes(b, color, r1, c1, r2, c2);
    LegalStringOf(color, b, r1, c1, r2, c2);
    MoveCoords(r1, c1, r2, c2);
    m := CoordString(r1, c1) + CoordString(r2, c2);
  }

  lemma NoLegalMoveRejects(color: Color, b: Board, m: string)
    requires IsBoard(b) && NoLegalMove(color, b)
    ensures !MoveLegal(m, color, b)
  {
  }

  /** The move string naming a move that passes both filters is accepted. */
  lemma LegalStringOf(color: Color, b: Board, r1: int, c1: int, r2: int, c2: int)
    requires IsBoard(b) && InGrid(r1, c1) && InGrid(r2, c2)
    requires Owns(b, r1, c1, color) && Escapes(b, color, r1, c1, r2, c2)
    ensures MoveLegal(CoordString(r1, c1) + CoordString(r2, c2), color, b)
  {
    MoveCoords(r1, c1, r2, c2);
    assert LegalAt(b, color, r1, c1, r2, c2);
  }

  /** The squares of a move string written from two squares. */
  lemma MoveCoords(r1: int, c1: int, r2: int, c2: int)
    requires InGrid(r1, c1) && InGrid(r2, c2)
    ensures var m := CoordString(r1, c1) + CoordString(r2, c2);
      |m| == 4 && CoordToPos(m[0..2]) == (r1, c1) && CoordToPos(m[2..4]) == (r2, c2)
  {
    var m := CoordString(r1, c1) + CoordString(r2, c2);
    assert m[0..2] == CoordString(r1, c1);
    assert m[2..4] == CoordString(r2, c2);
    CoordRoundTrip(r1, c1);
    CoordRoundTrip(r2, c2);
  }

  // ---------------------------------------------------------------------------
  // A position on which the two ownership rules disagree

  function CounterexampleSquare(r: int, c: int): Piece {
    if r == 9 && c == 3 then RedKing
    else if (r == 0 && c == 4) || (r == 8 && c == 8) then BlkRook
    else if r == 3 && c == 0 then Hidden
    else Empty
  }

  /** "4r4/9/9/x8/9/9/9/9/8r/3K5", Red to move: the red king on d0 is boxed in
      by the rooks on e9 and i1, and the only other piece is a face-down black
      pawn on a6. */
  function CounterexampleBoard(): (b: Board)
    ensures IsBoard(b)
  {
    seq(10, r => seq(9, c => CounterexampleSquare(r, c)))
  }

  /** The board after the black pawn steps from a6 to a5, square by square. */
  lemma PawnStepSquares(r: int, c: int)
    requires InGrid(r, c)
    ensures AfterMove(CounterexampleBoard(), 3, 0, 4, 0)[r][c] ==
      (if r == 4 && c == 0 then Hidden else if r == 3 && c == 0 then Empty else CounterexampleSquare(r, c))
  {
  }

  /** After the pawn step the square (r, c) does not attack the red king. */
  lemma PawnStepNoAttacker(r: int, c: int)
    requires InGrid(r, c)
    ensures !Attacks(AfterMove(CounterexampleBoard(), 3, 0, 4, 0), r, c, 9, 3, Black)
  {
    PawnStepSquares(r, c);
  }

  /** After the black pawn steps from a6 to a5 nothing attacks the red king. */
  lemma PawnStepLeavesKingSafe()
    ensures !InCheck(Red, AfterMove(CounterexampleBoard(), 3, 0, 4, 0))
  {
    var t := AfterMove(CounterexampleBoard(), 3, 0, 4, 0);
    forall r, c | InGrid(r, c) && (r, c) != (9, 3) ensures t[r][c] != RedKing {
      PawnStepSquares(r, c);
    }
    PawnStepSquares(9, 3);
    KingSquareUnique(t, Red, 9, 3);
    forall r, c | InGrid(r, c) ensures !Attacks(t, r, c, 9, 3, Black) {
      PawnStepNoAttacker(r, c);
    }
  }

  /** Each king step available to Red walks into a rook's line. */
  lemma KingStepsAreChecked(r2: int, c2: int)
    requires InGrid(r2, c2)
    ensures !Escapes(CounterexampleBoard(), Red, 9, 3, r2, c2)
  {
    var b := CounterexampleBoard();
    if MechValid(b, 9, 3, r2, c2) {
      assert (r2, c2) == (8, 3) || (r2, c2) == (9, 4);
      if r2 == 8 {
        KingStepOneChecked(8, 3, 8, 8);
      } else {
        KingStepOneChecked(9, 4, 0, 4);
      }
    }
  }

  /** The board after the red king steps to (r2, c2), square by square. */
  lemma KingStepSquares(r2: int, c2: int, r: int, c: int)
    requires (r2, c2) == (8, 3) || (r2, c2) == (9, 4)
    requires InGrid(r, c)
    ensures AfterMove(CounterexampleBoard(), 9, 3, r2, c2)[r][c] ==
      (if r == r2 && c == c2 then RedKing else if r == 9 && c == 3 then Empty else CounterexampleSquare(r, c))
  {
  }

  /** The red king moved to (r2, c2) is found there and attacked by the rook
      on (rr, rc). */
  lemma KingStepOneChecked(r2: int, c2: int, rr: int, rc: int)
    requires (r2, c2, rr, rc) == (8, 3, 8, 8) || (r2, c2, rr, rc) == (9, 4, 0, 4)
    ensures InCheck(Red, AfterMove(CounterexampleBoard(), 9, 3, r2, c2))
  {
    var t := AfterMove(CounterexampleBoard(), 9, 3, r2, c2);
    forall r, c | InGrid(r, c) && (r, c) != (r2, c2) ensures t[r][c] != RedKing {
      KingStepSquares(r2, c2, r, c);
    }
    KingStepSquares(r2, c2, r2, c2);
    KingSquareUnique(t, Red, r2, c2);
    KingStepLineClear(r2, c2, rr, rc);
    RookOnOpenLineAttacks(t, rr, rc, r2, c2);
  }

  /** A face-up black rook attacks a red king on an open row or column. */
  lemma RookOnOpenLineAttacks(b: Board, r: int, c: int, kr: int, kc: int)
    requires IsBoard(b) && InGrid(r, c) && InGrid(kr, kc)
    requires b[r][c] == BlkRook && b[kr][kc] == RedKing
    requires (r == kr || c == kc) && PiecesBetween(b, r, c, kr, kc) == 0
    ensures Attacks(b, r, c, kr, kc, Black)
  {
    assert GetBasePieceType(BlkRook) == RedRook;
  }

  lemma KingStepLineClear(r2: int, c2: int, rr: int, rc: int)
    requires (r2, c2, rr, rc) == (8, 3, 8, 8) || (r2, c2, rr, rc) == (9, 4, 0, 4)
    ensures var t := AfterMove(CounterexampleBoard(), 9, 3, r2, c2);
      t[rr][rc] == BlkRook && PiecesBetween(t, rr, rc, r2, c2) == 0
  {
    var t := AfterMove(CounterexampleBoard(), 9, 3, r2, c2);
    KingStepSquares(r2, c2, rr, rc);
    if r2 == 8 {
      forall c | 4 <= c < 8 ensures t[8][c] == Empty { KingStepSquares(r2, c2, 8, c); }
      CountRowZero(t, 8, 4, 8);
    } else {
      forall r | 1 <= r < 9 ensures t[r][4] == Empty { KingStepSquares(r2, c2, r, 4); }
      CountColZero(t, 4, 1, 9);
    }
  }

  /** On the counterexample board the red king is Red's only piece. */
  lemma OnlyTheKingIsRed(r: int, c: int)
    requires InGrid(r, c) && Owns(CounterexampleBoard(), r, c, Red)
    ensures (r, c) == (9, 3)
  {
    assert CounterexampleBoard()[r][c] == CounterexampleSquare(r, c);
  }

  /** On the counterexample board the search as written finds a move for Red
      (the black pawn's, which it counts as Red's because it stands on rows
      0..4), although no move of Red's passes is_move_legal: Red is stalemated. */
  lemma MateSearchMisreadsHiddenOwner()
    ensures !NoMoveAsWritten(Red, CounterexampleBoard())
    ensures NoLegalMove(Red, CounterexampleBoard())
  {
    AsWrittenFindsPawnStep();
    RedHasNoMove();
  }

  /** The two ownership tests differ only on face-down pieces: on a board
      with none, the search as written and the corrected one agree. */
  lemma MateSearchAgreesFaceUp(color: Color, b: Board)
    requires IsBoard(b)
    requires forall r, c :: InGrid(r, c) ==> b[r][c] != Hidden
    ensures NoMoveAsWritten(color, b) <==> NoLegalMove(color, b)
  {
    assert forall r, c :: InGrid(r, c) ==> (OwnsInMateSearch(b, r, c, color) <==> Owns(b, r, c, color));
  }

  lemma AsWrittenFindsPawnStep()
    ensures !NoMoveAsWritten(Red, CounterexampleBoard())
  {
    var b := CounterexampleBoard();
    assert OwnsInMateSearch(b, 3, 0, Red);
    PawnStepIsValid();
    PawnStepLeavesKingSafe();
    assert Escapes(b, Red, 3, 0, 4, 0);
  }

  /** The face-down piece on a6 moves like the black pawn of the starting
      layout, one step forward to the empty a5. */
  lemma PawnStepIsValid()
    ensures MechValid(CounterexampleBoard(), 3, 0, 4, 0)
  {
    var b := CounterexampleBoard();
    assert b[3][0] == Hidden && b[4][0] == Empty;
    assert EffectiveColor(b, 3, 0) == Black;
    assert GetBasePieceType(EffectiveRole(b, 3, 0)) == RedPawn;
    assert RoleAllows(b, RedPawn, false, Black, 3, 0, 4, 0);
  }

  lemma RedHasNoMove()
    ensures NoLegalMove(Red, CounterexampleBoard())
  {
    var b := CounterexampleBoard();
    forall r1, c1, r2, c2 | InGrid(r1, c1) && InGrid(r2, c2) && Owns(b, r1, c1, Red)
      ensures !Escapes(b, Red, r1, c1, r2, c2)
    {
      OnlyTheKingIsRed(r1, c1);
      KingStepsAreChecked(r2, c2);
    }
  }
}

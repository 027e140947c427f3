// One game between two engines: the board and side to move read from and
// written to FEN text, the moves as the code applies them (flips and hidden
// captures drawn from the pool), the three move histories, and the per-ply
// loop that decides the result.  The engines are replaced by the replies
// they give: the move, the time it took, and the random draws it causes.

module Game {
  import opened Text
  import opened Types
  import opened MoveValidator
  import PiecePool
  import TM = TimeManager

  // ---------------------------------------------------------------------------
  // Splitting the FEN into its fields (std::views::split on ' ')

  /** The position of the first c in s. */
  function IndexOf(s: string, c: char): (i: nat)
    requires c in s
    ensures i < |s| && s[i] == c && c !in s[..i]
  {
    if s[0] == c then 0
    else 1 + IndexOf(s[1..], c)
  }

  /** The pieces of s between single blanks, empty ones included. */
  function FieldsOf(s: string): (parts: seq<string>)
    ensures |parts| >= 1
    decreases |s|
  {
    if ' ' in s then
      var i := IndexOf(s, ' ');
      [s[..i]] + FieldsOf(s[i + 1..])
    else [s]
  }

  /** The fields of the FEN; an empty text has none. */
  function SplitFields(s: string): (parts: seq<string>)
    ensures s == [] <==> parts == []
  {
    if s == [] then [] else FieldsOf(s)
  }

  lemma FieldsOfBlankFree(a: string)
    requires ' ' !in a
    ensures FieldsOf(a) == [a]
  {
  }

  /** A c preceded by no other c is the first one. */
  lemma {:induction false} IndexOfAt(s: string, c: char, k: nat)
    requires k < |s| && s[k] == c && c !in s[..k]
    ensures IndexOf(s, c) == k
  {
    if k > 0 {
      assert s[..k][0] == s[0];
      assert s[1..][..k - 1] == s[..k][1..];
      IndexOfAt(s[1..], c, k - 1);
    }
  }

  /** A field without blanks followed by a blank splits off first. */
  lemma FieldsOfCons(a: string, rest: string)
    requires ' ' !in a
    ensures FieldsOf(a + " " + rest) == [a] + FieldsOf(rest)
  {
    var s := a + " " + rest;
    assert s[..|a|] == a;
    IndexOfAt(s, ' ', |a|);
    assert s[|a| + 1..] == rest;
  }

  // ---------------------------------------------------------------------------
  // Reading the board field (the loop of parse_fen)

  /** The parse position: row and column of the next square, and the board
      filled so far. */
  datatype Cursor = Cursor(row: int, col: int, board: Board)

  predicate ValidCursor(cur: Cursor) {
    cur.row >= 0 && cur.col >= 0 && IsBoard(cur.board)
  }

  function Place(b: Board, r: int, c: int, p: Piece): (t: Board)
    requires IsBoard(b) && InGrid(r, c)
    ensures IsBoard(t) && t[r][c] == p
  {
    b[r := b[r][c := p]]
  }

  /** Placing a piece leaves every other square as it was. */
  lemma PlaceOthers(b: Board, r: int, c: int, p: Piece)
    requires IsBoard(b) && InGrid(r, c)
    ensures forall i, j :: InGrid(i, j) && (i, j) != (r, c) ==> Place(b, r, c, p)[i][j] == b[i][j]
  {
  }

  /** One character of the board field: '/' starts the next row, a digit
      skips that many columns, 'x' or 'X' is a face-down piece and any other
      character is looked up in the character table, which fails for an
      unknown one.  A piece that falls outside the grid is dropped. */
  function BoardStep(cur: Cursor, ch: char): (r: Option<Cursor>)
    requires ValidCursor(cur)
    ensures r.Some? ==> ValidCursor(r.value)
  {
    if ch == '/' then Some(Cursor(cur.row + 1, 0, cur.board))
    else if IsDigit(ch) then Some(cur.(col := cur.col + (ch as int - '0' as int)))
    else if cur.col < 9 && cur.row < 10 then
      var piece := if ch == 'x' || ch == 'X' then Some(Hidden) else PieceOf(ch);
      match piece
      case None => None
      case Some(p) => Some(Cursor(cur.row, cur.col + 1, Place(cur.board, cur.row, cur.col, p)))
    else Some(cur)
  }

  function ParseBoardFrom(cur: Cursor, s: string): (r: Option<Cursor>)
    requires ValidCursor(cur)
    ensures r.Some? ==> ValidCursor(r.value)
    decreases |s|
  {
    if s == [] then Some(cur)
    else
      match BoardStep(cur, s[0])
      case None => None
      case Some(next) => ParseBoardFrom(next, s[1..])
  }

  const EmptyRow: seq<Piece> := [Empty, Empty, Empty, Empty, Empty, Empty, Empty, Empty, Empty]
  const EmptyBoard: Board :=
    [EmptyRow, EmptyRow, EmptyRow, EmptyRow, EmptyRow, EmptyRow, EmptyRow, EmptyRow, EmptyRow, EmptyRow]

  lemma EmptyBoardIsBoard()
    ensures IsBoard(EmptyBoard)
    ensures forall r, c :: InGrid(r, c) ==> EmptyBoard[r][c] == Empty
  {
  }

  /** The board a board field describes, None when it holds a character
      the table does not know. */
  function ParseBoard(s: string): (r: Option<Board>)
    ensures r.Some? ==> IsBoard(r.value)
  {
    EmptyBoardIsBoard();
    match ParseBoardFrom(Cursor(0, 0, EmptyBoard), s)
    case None => None
    case Some(cur) => Some(cur.board)
  }

  // ---------------------------------------------------------------------------
  // Writing the board field (generate_fen_board_part)

  /** The pending run of empty squares, written as its count. */
  function Flush(run: nat): string {
    if run > 0 then NatToString(run) else ""
  }

  /** A row from column c on, with `run` empty squares not yet written. */
  function RowGen(row: seq<Piece>, c: nat, run: nat): string
    requires c <= |row|
    decreases |row| - c
  {
    if c == |row| then Flush(run)
    else if row[c] == Empty then RowGen(row, c + 1, run + 1)
    else Flush(run) + [CharOf(row[c])] + RowGen(row, c + 1, 0)
  }

  function Separator(r: int): string {
    if r < 9 then "/" else ""
  }

  /** Rows r .. 9, separated by '/'. */
  function RowsFrom(b: Board, r: nat): string
    requires IsBoard(b) && r <= 10
    decreases 10 - r
  {
    if r == 10 then "" else RowGen(b[r], 0, 0) + Separator(r) + RowsFrom(b, r + 1)
  }

  function BoardText(b: Board): string
    requires IsBoard(b)
  {
    RowsFrom(b, 0)
  }

  // ---------------------------------------------------------------------------
  // Reading back what was written

  /** Parsing in two pieces is parsing the first, then the second from
      where the first stopped. */
  lemma {:induction false} ParseAppend(cur: Cursor, x: string, y: string)
    requires ValidCursor(cur)
    ensures ParseBoardFrom(cur, x + y) ==
      match ParseBoardFrom(cur, x)
      case None => None
      case Some(next) => ParseBoardFrom(next, y)
    decreases |x|
  {
    if x == [] {
      assert x + y == y;
    } else {
      assert (x + y)[0] == x[0];
      assert (x + y)[1..] == x[1..] + y;
      match BoardStep(cur, x[0])
      case None =>
      case Some(next) =>
        ParseAppend(next, x[1..], y);
    }
  }

  /** A written run of empty squares moves the column on by its length. */
  lemma ParseFlush(cur: Cursor, run: nat)
    requires ValidCursor(cur) && run <= 9
    ensures ParseBoardFrom(cur, Flush(run)) == Some(cur.(col := cur.col + run))
  {
    if run > 0 {
      var d := NatToString(run);
      assert d == [DigitChar(run)];
      assert ParseBoardFrom(cur, d) == ParseBoardFrom(cur.(col := cur.col + run), d[1..]);
    }
  }

  /** A written piece lands on the square under the cursor. */
  lemma ParsePiece(cur: Cursor, p: Piece)
    requires ValidCursor(cur) && InGrid(cur.row, cur.col) && p != Empty
    ensures ParseBoardFrom(cur, [CharOf(p)]) ==
      Some(Cursor(cur.row, cur.col + 1, Place(cur.board, cur.row, cur.col, p)))
  {
    var ch := CharOf(p);
    PieceOfCharOf(p);
    CharOfIsTable(p);
    TableCases(ch);
    assert [ch][1..] == [];
  }

  /** Row r of B holds the first k squares of row and is empty after them. */
  ghost predicate RowFilled(B: Board, r: int, row: seq<Piece>, k: int)
    requires IsBoard(B) && 0 <= r < 10 && |row| == 9
  {
    forall j :: 0 <= j < 9 ==> B[r][j] == if j < k then row[j] else Empty
  }

  /** Reading a written row from any column of it fills the rest of the row. */
  lemma {:induction false} RowParses(B: Board, r: int, row: seq<Piece>, c: nat, run: nat)
    requires IsBoard(B) && 0 <= r < 10 && |row| == 9 && run <= c <= 9
    requires forall j :: c - run <= j < c ==> row[j] == Empty
    requires RowFilled(B, r, row, c - run)
    ensures ParseBoardFrom(Cursor(r, c - run, B), RowGen(row, c, run)) == Some(Cursor(r, 9, B[r := row]))
    decreases 9 - c
  {
    var cur := Cursor(r, c - run, B);
    if c == 9 {
      ParseFlush(cur, run);
      assert B[r] == row;
      assert B[r := row] == B;
    } else if row[c] == Empty {
      RowParses(B, r, row, c + 1, run + 1);
    } else {
      var p := row[c];
      var B' := Place(B, r, c, p);
      ParseFlush(cur, run);
      var mid := Cursor(r, c, B);
      ParsePiece(mid, p);
      RowParses(B', r, row, c + 1, 0);
      assert B'[r := row] == B[r := row];
      ParseAppend(cur, Flush(run), [CharOf(p)]);
      ParseAppend(cur, Flush(run) + [CharOf(p)], RowGen(row, c + 1, 0));
    }
  }

  /** Rows below r are as in b and the rest is empty. */
  ghost predicate RowsFilled(B: Board, b: Board, r: int)
    requires IsBoard(B) && IsBoard(b)
  {
    forall i, j :: InGrid(i, j) ==> B[i][j] == if i < r then b[i][j] else Empty
  }

  lemma {:induction false} RowsParse(B: Board, b: Board, r: nat)
    requires IsBoard(B) && IsBoard(b) && r < 10 && RowsFilled(B, b, r)
    ensures ParseBoardFrom(Cursor(r, 0, B), RowsFrom(b, r)) == Some(Cursor(9, 9, b))
    decreases 10 - r
  {
    var cur := Cursor(r, 0, B);
    var B' := B[r := b[r]];
    RowParses(B, r, b[r], 0, 0);
    if r == 9 {
      assert RowsFrom(b, r) == RowGen(b[r], 0, 0) + "" + "";
      assert RowGen(b[r], 0, 0) + "" + "" == RowGen(b[r], 0, 0);
      forall i | 0 <= i < 10
        ensures B'[i] == b[i]
      {
        if i < 9 {
          assert forall j | 0 <= j < 9 :: B[i][j] == b[i][j];
        }
      }
      assert B' == b;
    } else {
      assert ParseBoardFrom(Cursor(r, 9, B'), "/") == Some(Cursor(r + 1, 0, B'));
      RowsParse(B', b, r + 1);
      ParseAppend(cur, RowGen(b[r], 0, 0), "/");
      ParseAppend(cur, RowGen(b[r], 0, 0) + "/", RowsFrom(b, r + 1));
    }
  }

  /** Re-reading a generated board field gives the same board. */
  lemma BoardRoundTrip(b: Board)
    requires IsBoard(b)
    ensures ParseBoard(BoardText(b)) == Some(b)
  {
    EmptyBoardIsBoard();
    RowsParse(EmptyBoard, b, 0);
  }

  // ---------------------------------------------------------------------------
  // Characters the writer emits

  /** Every table character is a letter of exactly one case, and none of
      them is a digit, a slash or a blank. */
  lemma CharOfFacts(p: Piece)
    requires p != Empty
    ensures PieceOf(CharOf(p)) == Some(p)
    ensures IsUpper(CharOf(p)) != IsLower(CharOf(p))
    ensures !IsDigit(CharOf(p)) && CharOf(p) != '/' && CharOf(p) != ' ' && CharOf(p) != 'X'
  {
    PieceOfCharOf(p);
  }

  lemma {:induction false} RowGenBlankless(row: seq<Piece>, c: nat, run: nat)
    requires c <= |row| == 9 && run <= c
    ensures ' ' !in RowGen(row, c, run)
    decreases 9 - c
  {
    if c == 9 {
    } else if row[c] == Empty {
      RowGenBlankless(row, c + 1, run + 1);
    } else {
      CharOfFacts(row[c]);
      RowGenBlankless(row, c + 1, 0);
    }
  }

  lemma {:induction false} RowsBlankless(b: Board, r: nat)
    requires IsBoard(b) && r <= 10
    ensures ' ' !in RowsFrom(b, r)
    decreases 10 - r
  {
    if r < 10 {
      RowGenBlankless(b[r], 0, 0);
      RowsBlankless(b, r + 1);
    }
  }

  /** The board field is a single FEN field. */
  lemma BoardTextBlankless(b: Board)
    requires IsBoard(b)
    ensures ' ' !in BoardText(b)
  {
    RowsBlankless(b, 0);
  }

  lemma {:induction false} PoolPrefixBlankless(m: PiecePool.Counts, k: nat)
    requires k <= |PiecePool.PoolOrder|
    ensures ' ' !in PiecePool.PoolStringUpTo(m, k)
  {
    if k > 0 {
      PoolPrefixBlankless(m, k - 1);
      var p := PiecePool.PoolOrder[k - 1];
      PiecePool.PoolOrderPieces(k - 1);
      CharOfFacts(p);
    }
  }

  /** The pool field is a single FEN field. */
  lemma PoolTextBlankless(m: PiecePool.Counts)
    ensures ' ' !in PiecePool.PoolString(m)
  {
    PoolPrefixBlankless(m, |PiecePool.PoolOrder|);
  }

  // ---------------------------------------------------------------------------
  // The whole FEN

  function SideText(turn: Color): string {
    if turn == Red then "w" else "b"
  }

  /** The key of the repetition table: the board field and the side to move. */
  function PositionKey(b: Board, turn: Color): string
    requires IsBoard(b)
  {
    BoardText(b) + " " + SideText(turn)
  }

  /** generate_fen: board field, side, pool, and the fixed move counters. */
  function FenText(b: Board, turn: Color, pool: PiecePool.Counts): string
    requires IsBoard(b)
  {
    BoardText(b) + " " + SideText(turn) + " " + PiecePool.PoolString(pool) + " 0 1"
  }

  /** What parse_fen sets up: board, side to move and pool. */
  datatype FenValue = FenValue(board: Board, turn: Color, pool: PiecePool.Counts)

  /** parse_fen's outcome, None where it throws: fewer than three fields, or
      a board character the table does not know.  The side is Red exactly
      when the second field is "w". */
  function ParseFenValue(fen: string): (r: Option<FenValue>)
    ensures |SplitFields(fen)| < 3 ==> r.None?
    ensures r.Some? ==>
      && IsBoard(r.value.board)
      && (r.value.turn == Red <==> SplitFields(fen)[1] == "w")
      && r.value.turn != NoColor
      && PiecePool.ValidCounts(r.value.pool)
  {
    var parts := SplitFields(fen);
    if |parts| < 3 then None
    else
      match ParseBoard(parts[0])
      case None => None
      case Some(b) => Some(FenValue(b, if parts[1] == "w" then Red else Black, PiecePool.PoolCounts(parts[2])))
  }

  lemma FieldsOfStep(a: string, rest: string, ws: seq<string>)
    requires ' ' !in a && FieldsOf(rest) == ws
    ensures FieldsOf(a + " " + rest) == [a] + ws
  {
    FieldsOfCons(a, rest);
  }

  /** Five blank-free fields joined by single blanks split back apart. */
  lemma FieldsOfFive(a: string, b: string, c: string, d: string, e: string)
    requires ' ' !in a && ' ' !in b && ' ' !in c && ' ' !in d && ' ' !in e
    ensures FieldsOf(a + " " + (b + " " + (c + " " + (d + " " + e)))) == [a, b, c, d, e]
  {
    var t4 := d + " " + e;
    var t3 := c + " " + t4;
    var t2 := b + " " + t3;
    FieldsOfBlankFree(e);
    FieldsOfStep(d, e, [e]);
    FieldsOfStep(c, t4, [d, e]);
    FieldsOfStep(b, t3, [c, d, e]);
    FieldsOfStep(a, t2, [b, c, d, e]);
  }

  lemma FenTextShape(x: string, y: string, z: string)
    ensures x + " " + y + " " + z + " 0 1" == x + " " + (y + " " + (z + " " + ("0" + " " + "1")))
  {
    assert " 0 1" == " " + "0" + " " + "1";
  }

  /** Splitting a generated FEN gives back its five fields. */
  lemma FenFields(b: Board, turn: Color, pool: PiecePool.Counts)
    requires IsBoard(b)
    ensures SplitFields(FenText(b, turn, pool)) ==
      [BoardText(b), SideText(turn), PiecePool.PoolString(pool), "0", "1"]
  {
    BoardTextBlankless(b);
    PoolTextBlankless(pool);
    FenTextShape(BoardText(b), SideText(turn), PiecePool.PoolString(pool));
    FieldsOfFive(BoardText(b), SideText(turn), PiecePool.PoolString(pool), "0", "1");
  }

  /** Reading back a generated FEN restores the board, the side (any side
      other than Red reads back as Black) and every pool the writer can
      print faithfully. */
  lemma FenRoundTrip(b: Board, turn: Color, pool: PiecePool.Counts)
    requires IsBoard(b) && PiecePool.CanonicalCounts(pool)
    ensures ParseFenValue(FenText(b, turn, pool)) == Some(FenValue(b, if turn == Red then Red else Black, pool))
  {
    FenFields(b, turn, pool);
    BoardRoundTrip(b);
    PiecePool.ParsePrintRoundTrip(pool);
  }

  // ---------------------------------------------------------------------------
  // Squares by name (get_piece_at_coord, set_piece_at_coord)

  /** The piece on a named square, Empty for a name that is not a square.
      The name is read as coord_to_pos reads it. */
  function PieceAt(b: Board, coord: string): Piece
    requires IsBoard(b)
  {
    var (r, c) := CoordToPos(coord);
    if r == -1 then Empty else b[r][c]
  }

  /** The board with a piece put on a named square; unchanged for a name
      that is not a square. */
  function SetAt(b: Board, coord: string, p: Piece): (t: Board)
    requires IsBoard(b)
    ensures IsBoard(t)
  {
    var (r, c) := CoordToPos(coord);
    if r == -1 then b else Place(b, r, c, p)
  }

  /** Reading a square after writing it gives what was written, other
      squares keep their pieces, and a bad name neither reads nor writes. */
  lemma SetThenGet(b: Board, coord: string, other: string, p: Piece)
    requires IsBoard(b)
    ensures CoordToPos(coord) == (-1, -1) ==> PieceAt(b, coord) == Empty && SetAt(b, coord, p) == b
    ensures CoordToPos(coord) != (-1, -1) ==> PieceAt(SetAt(b, coord, p), coord) == p
    ensures other != coord ==> PieceAt(SetAt(b, coord, p), other) == PieceAt(b, other)
  {
  }

  // ---------------------------------------------------------------------------
  // Playing a move (process_move)

  /** The identity a face-down piece of `turn` turns out to be, and the
      pool after the draw; an empty pool falls back to the side's pawn. */
  function Revealed(m: PiecePool.Counts, turn: Color, rnd: nat): (r: (Piece, PiecePool.Counts))
    ensures r.0 != Empty
    ensures PiecePool.Draw(m, turn, rnd).0.Some? ==> r == (PiecePool.Draw(m, turn, rnd).0.value, PiecePool.Draw(m, turn, rnd).1)
    ensures PiecePool.Draw(m, turn, rnd).0.None? ==> r == (if turn == Red then RedPawn else BlkPawn, m)
  {
    var (drawn, m') := PiecePool.Draw(m, turn, rnd);
    match drawn
    case Some(p) => (p, m')
    case None => (if turn == Red then RedPawn else BlkPawn, m')
  }

  /** What process_move yields: the move text with its suffixes, and the
      board and pool after it. */
  datatype Played = Played(text: string, board: Board, pool: PiecePool.Counts)

  /** The piece that lands on the target and the pool after the flip draw:
      a face-down mover is drawn for, any other mover stays itself. */
  function FlipOf(b: Board, m: PiecePool.Counts, turn: Color, move: string, flipRnd: nat): (PiecePool.Counts, Piece)
    requires IsBoard(b) && |move| == 4
  {
    var moving := PieceAt(b, move[0..2]);
    if moving == Hidden then (Revealed(m, turn, flipRnd).1, Revealed(m, turn, flipRnd).0) else (m, moving)
  }

  /** The suffix that reveals the mover's face-down piece, if it was one. */
  function FlipSuffix(b: Board, m: PiecePool.Counts, turn: Color, move: string, flipRnd: nat): string
    requires IsBoard(b) && |move| == 4
  {
    if PieceAt(b, move[0..2]) == Hidden then [CharOf(Revealed(m, turn, flipRnd).0)] else ""
  }

  /** The draw for a face-down target, made for the opponent's colour. */
  function CaptureOf(b: Board, m: PiecePool.Counts, turn: Color, move: string, captureRnd: nat): (Option<Piece>, PiecePool.Counts)
    requires IsBoard(b) && |move| == 4
  {
    if PieceAt(b, move[2..4]) == Hidden then PiecePool.Draw(m, Opponent(turn), captureRnd) else (None, m)
  }

  /** The suffix naming a captured face-down piece; none when the opponent's
      pool had nothing left. */
  function CaptureSuffix(b: Board, m: PiecePool.Counts, turn: Color, move: string, captureRnd: nat): string
    requires IsBoard(b) && |move| == 4
  {
    match CaptureOf(b, m, turn, move, captureRnd).0
    case Some(p) => [CharOf(p)]
    case None => ""
  }

  /** The target takes the landing piece, then the source is emptied. */
  function MovedBoard(b: Board, move: string, landing: Piece): (t: Board)
    requires IsBoard(b) && |move| == 4
    ensures IsBoard(t)
  {
    SetAt(SetAt(b, move[2..4], landing), move[0..2], Empty)
  }

  /** process_move, with flipRnd and captureRnd standing for the random
      draws of the flip and of the hidden capture. */
  function ProcessMoveOf(b: Board, m: PiecePool.Counts, turn: Color, move: string, flipRnd: nat, captureRnd: nat): (r: Played)
    requires IsBoard(b)
    ensures IsBoard(r.board)
  {
    if |move| != 4 then Played(move, b, m)
    else
      var (m1, landing) := FlipOf(b, m, turn, move, flipRnd);
      var text := move + FlipSuffix(b, m, turn, move, flipRnd) + CaptureSuffix(b, m1, turn, move, captureRnd);
      Played(text, MovedBoard(b, move, landing), CaptureOf(b, m1, turn, move, captureRnd).1)
  }

  /** A move text other than four characters is handed back unchanged and
      nothing moves; otherwise the move text is kept, followed by at most one
      character for the flip and one for the capture, and the pool stays
      well formed. */
  lemma ProcessMoveShape(b: Board, m: PiecePool.Counts, turn: Color, move: string, flipRnd: nat, captureRnd: nat)
    requires IsBoard(b) && PiecePool.ValidCounts(m)
    ensures var r := ProcessMoveOf(b, m, turn, move, flipRnd, captureRnd);
      && (|move| != 4 ==> r == Played(move, b, m))
      && (|move| == 4 ==>
            && 4 <= |r.text| <= 6
            && r.text[..4] == move
            && r.text[..4 + |FlipSuffix(b, m, turn, move, flipRnd)|] == move + FlipSuffix(b, m, turn, move, flipRnd))
      && PiecePool.ValidCounts(r.pool)
  {
    if |move| == 4 {
      var f := FlipSuffix(b, m, turn, move, flipRnd);
      var m1 := FlipOf(b, m, turn, move, flipRnd).0;
      var c := CaptureSuffix(b, m1, turn, move, captureRnd);
      assert |f| <= 1 && |c| <= 1;
      PrefixOfConcat(move, f, c);
      PiecePool.DrawPreservesValid(m, turn, flipRnd);
      PiecePool.DrawPreservesValid(m1, Opponent(turn), captureRnd);
    }
  }

  lemma PrefixOfConcat(x: string, f: string, c: string)
    requires |x| == 4
    ensures (x + f + c)[..4] == x && (x + f + c)[..4 + |f|] == x + f
  {
    assert (x + f + c)[..4 + |f|] == x + f;
    assert (x + f)[..4] == x;
  }

  /** Two boards with the same piece on every square are the same board. */
  lemma BoardsEqual(s: Board, t: Board)
    requires IsBoard(s) && IsBoard(t)
    requires forall i, j :: InGrid(i, j) ==> s[i][j] == t[i][j]
    ensures s == t
  {
    forall i | 0 <= i < 10
      ensures s[i] == t[i]
    {
      assert forall j | 0 <= j < 9 :: s[i][j] == t[i][j];
    }
  }

  /** The board after process_move is the board after the move the validator
      checked, played with the mover's piece turned face up first: the
      source square empties and the target holds the revealed identity, or
      the mover itself when it was face up. */
  lemma ProcessMoveBoard(b: Board, m: PiecePool.Counts, turn: Color, move: string, flipRnd: nat, captureRnd: nat)
    requires IsBoard(b) && |move| == 4
    requires CoordToPos(move[0..2]) != (-1, -1) && CoordToPos(move[2..4]) != (-1, -1)
    ensures var (r1, c1) := CoordToPos(move[0..2]);
      var (r2, c2) := CoordToPos(move[2..4]);
      ProcessMoveOf(b, m, turn, move, flipRnd, captureRnd).board ==
        AfterMove(Place(b, r1, c1, FlipOf(b, m, turn, move, flipRnd).1), r1, c1, r2, c2)
  {
    var (r1, c1) := CoordToPos(move[0..2]);
    var (r2, c2) := CoordToPos(move[2..4]);
    var landing := FlipOf(b, m, turn, move, flipRnd).1;
    var t := MovedBoard(b, move, landing);
    assert t == Place(Place(b, r2, c2, landing), r1, c1, Empty);
    var u := AfterMove(Place(b, r1, c1, landing), r1, c1, r2, c2);
    BoardsEqual(t, u);
  }

  /** A four-character move from a face-up piece changes the board exactly
      as the validator's trial move did. */
  lemma FaceUpMoveIsTrialMove(b: Board, m: PiecePool.Counts, turn: Color, move: string, flipRnd: nat, captureRnd: nat)
    requires IsBoard(b) && |move| == 4 && MoveLegal(move, turn, b)
    requires PieceAt(b, move[0..2]) != Hidden
    ensures var (r1, c1) := CoordToPos(move[0..2]);
      var (r2, c2) := CoordToPos(move[2..4]);
      ProcessMoveOf(b, m, turn, move, flipRnd, captureRnd).board == AfterMove(b, r1, c1, r2, c2)
  {
    ProcessMoveBoard(b, m, turn, move, flipRnd, captureRnd);
    var (r1, c1) := CoordToPos(move[0..2]);
    PlaceSame(b, r1, c1);
  }

  lemma PlaceSame(b: Board, r: int, c: int)
    requires IsBoard(b) && InGrid(r, c)
    ensures Place(b, r, c, b[r][c]) == b
  {
    assert b[r][c := b[r][c]] == b[r];
  }

  /** A move text longer than four characters whose first four make a legal
      move passes the validator, yet process_move hands it back and leaves
      the board as it was. */
  lemma LongMoveLeavesBoard(b: Board, m: PiecePool.Counts, turn: Color, move: string, flipRnd: nat, captureRnd: nat)
    requires IsBoard(b) && |move| > 4 && MoveLegal(move[..4], turn, b)
    ensures MoveLegal(move, turn, b)
    ensures ProcessMoveOf(b, m, turn, move, flipRnd, captureRnd) == Played(move, b, m)
  {
    MoveLegalReadsFourChars(move, turn, b);
  }

  // ---------------------------------------------------------------------------
  // The three histories (add_move_to_histories, get_moves_for_color)

  /** Red's copy: a move by Black loses a trailing capital, the identity
      of a red piece Black's capture revealed. */
  function RedCopy(move: string, mover: Color): string {
    if |move| > 4 && mover == Black && IsUpper(move[|move| - 1]) then move[..|move| - 1] else move
  }

  /** Black's copy: a move by Red loses a trailing small letter. */
  function BlackCopy(move: string, mover: Color): string {
    if |move| > 4 && mover == Red && IsLower(move[|move| - 1]) then move[..|move| - 1] else move
  }

  /** The history the given side is shown; any side but Red gets Black's. */
  function CopyFor(side: Color, move: string, mover: Color): string {
    if side == Red then RedCopy(move, mover) else BlackCopy(move, mover)
  }

  /** Each copy differs from the true move only in the one case named, and
      then by dropping the last character. */
  lemma CopiesDropOnlyCaptures(move: string, mover: Color)
    ensures RedCopy(move, mover) != move <==> |move| > 4 && mover == Black && IsUpper(move[|move| - 1])
    ensures BlackCopy(move, mover) != move <==> |move| > 4 && mover == Red && IsLower(move[|move| - 1])
    ensures RedCopy(move, mover) == move || RedCopy(move, mover) + [move[|move| - 1]] == move
    ensures BlackCopy(move, mover) == move || BlackCopy(move, mover) + [move[|move| - 1]] == move
  {
    if |move| > 0 {
      assert |move[..|move| - 1]| < |move|;
      assert move[..|move| - 1] + [move[|move| - 1]] == move;
    }
  }

  /** The identity of a piece drawn for a side is in that side's case. */
  lemma DrawnCase(m: PiecePool.Counts, color: Color, rnd: nat)
    requires PiecePool.Draw(m, color, rnd).0.Some?
    ensures var p := PiecePool.Draw(m, color, rnd).0.value;
      p != Empty && IsUpper(CharOf(p)) == (color == Red) && IsLower(CharOf(p)) == (color != Red)
  {
    var p := PiecePool.Draw(m, color, rnd).0.value;
    CharOfFacts(p);
  }

  /** A flip suffix is one character in the mover's case. */
  lemma FlipSuffixCase(b: Board, m: PiecePool.Counts, turn: Color, move: string, flipRnd: nat)
    requires IsBoard(b) && |move| == 4 && (turn == Red || turn == Black)
    ensures var f := FlipSuffix(b, m, turn, move, flipRnd);
      f == "" || (|f| == 1 && IsUpper(f[0]) == (turn == Red) && IsLower(f[0]) == (turn == Black))
  {
    if PiecePool.Draw(m, turn, flipRnd).0.Some? {
      DrawnCase(m, turn, flipRnd);
    }
  }

  /** A capture suffix is one character in the opponent's case. */
  lemma CaptureSuffixCase(b: Board, m: PiecePool.Counts, turn: Color, move: string, captureRnd: nat)
    requires IsBoard(b) && |move| == 4 && (turn == Red || turn == Black)
    ensures var c := CaptureSuffix(b, m, turn, move, captureRnd);
      c == "" || (|c| == 1 && IsUpper(c[0]) == (turn == Black) && IsLower(c[0]) == (turn == Red))
  {
    if PieceAt(b, move[2..4]) == Hidden && PiecePool.Draw(m, Opponent(turn), captureRnd).0.Some? {
      DrawnCase(m, Opponent(turn), captureRnd);
    }
  }

  /** The copies of a text built from a move, a suffix in the mover's case
      and a suffix in the opponent's case. */
  lemma CopiesOfSuffixes(move: string, f: string, c: string, turn: Color)
    requires |move| == 4 && (turn == Red || turn == Black)
    requires f == "" || (|f| == 1 && IsUpper(f[0]) == (turn == Red) && IsLower(f[0]) == (turn == Black))
    requires c == "" || (|c| == 1 && IsUpper(c[0]) == (turn == Black) && IsLower(c[0]) == (turn == Red))
    ensures CopyFor(turn, move + f + c, turn) == move + f + c
    ensures CopyFor(Opponent(turn), move + f + c, turn) == move + f
  {
    var text := move + f + c;
    if c != "" {
      assert text[|text| - 1] == c[0];
      assert text[..|text| - 1] == move + f;
    } else if f != "" {
      assert text == move + f;
      assert text[|text| - 1] == f[0];
    } else {
      assert |text| == 4;
    }
  }

  /** Information hiding: the mover's own history gets the whole text, the
      opponent's gets the move and the flip but never the identity of a
      face-down piece the move captured. */
  lemma CopiesHideCapture(b: Board, m: PiecePool.Counts, turn: Color, move: string, flipRnd: nat, captureRnd: nat)
    requires IsBoard(b) && |move| == 4 && (turn == Red || turn == Black)
    ensures var text := ProcessMoveOf(b, m, turn, move, flipRnd, captureRnd).text;
      && CopyFor(turn, text, turn) == text
      && CopyFor(Opponent(turn), text, turn) == move + FlipSuffix(b, m, turn, move, flipRnd)
  {
    var m1 := FlipOf(b, m, turn, move, flipRnd).0;
    FlipSuffixCase(b, m, turn, move, flipRnd);
    CaptureSuffixCase(b, m1, turn, move, captureRnd);
    CopiesOfSuffixes(move, FlipSuffix(b, m, turn, move, flipRnd), CaptureSuffix(b, m1, turn, move, captureRnd), turn);
  }

  // ---------------------------------------------------------------------------
  // The game as a sequence of plies (run)

  /** What an engine answers to one `go`: the move text, the milliseconds it
      took, and the random numbers the draws of that ply use. */
  datatype Reply = Reply(move: string, elapsedMs: nat, flipRnd: nat, captureRnd: nat)

  /** What the game sends to the engine to move: the side, the move list it
      is shown, and the go command. */
  datatype Request = Request(side: Color, moves: seq<string>, goCommand: string)

  /** The clock's state: the time control and the timeout buffer. */
  datatype Clock = Clock(tc: TM.TimeControl, bufferMs: int)

  datatype GameState = GameState(
    board: Board,
    turn: Color,
    pool: PiecePool.Counts,
    clock: Option<Clock>,
    trueMoves: seq<string>,
    redMoves: seq<string>,
    blackMoves: seq<string>,
    positions: map<string, int>,
    requests: seq<Request>)

  predicate ValidState(st: GameState) {
    && IsBoard(st.board)
    && PiecePool.ValidCounts(st.pool)
    && st.turn != NoColor
    && |st.redMoves| == |st.trueMoves|
    && |st.blackMoves| == |st.trueMoves|
  }

  /** get_moves_for_color: Red is shown Red's copy, any other side Black's. */
  function HistoryFor(st: GameState, side: Color): seq<string> {
    if side == Red then st.redMoves else st.blackMoves
  }

  function GoText(clock: Option<Clock>): string {
    match clock
    case Some(c) => TM.GoCommand(c.tc)
    case None => "go movetime 2000"
  }

  /** The side to move is sent its history and the go command. */
  function Asked(st: GameState): GameState {
    st.(requests := st.requests + [Request(st.turn, HistoryFor(st, st.turn), GoText(st.clock))])
  }

  predicate GivesUp(move: string) {
    move == "resign" || move == "" || move == "(none)"
  }

  /** The mover's clock charged with the time the reply took. */
  function Charge(st: GameState, elapsedMs: nat): GameState {
    match st.clock
    case None => st
    case Some(c) => st.(clock := Some(c.(tc := TM.Charged(c.tc, st.turn, elapsedMs))))
  }

  predicate TimedOut(st: GameState, side: Color) {
    st.clock.Some? && TM.OutOfTime(st.clock.value.tc, side, st.clock.value.bufferMs)
  }

  /** The move played, recorded in the three histories, and the turn passed. */
  function Apply(st: GameState, reply: Reply): (r: GameState)
    requires ValidState(st)
    ensures ValidState(r)
  {
    var p := ProcessMoveOf(st.board, st.pool, st.turn, reply.move, reply.flipRnd, reply.captureRnd);
    ProcessMoveShape(st.board, st.pool, st.turn, reply.move, reply.flipRnd, reply.captureRnd);
    st.(board := p.board, pool := p.pool,
        trueMoves := st.trueMoves + [p.text],
        redMoves := st.redMoves + [RedCopy(p.text, st.turn)],
        blackMoves := st.blackMoves + [BlackCopy(p.text, st.turn)],
        turn := Opponent(st.turn))
  }

  function Seen(positions: map<string, int>, key: string): int {
    if key in positions then positions[key] else 0
  }

  /** The position reached is counted once more. */
  function Count(st: GameState): GameState
    requires IsBoard(st.board)
  {
    var key := PositionKey(st.board, st.turn);
    st.(positions := st.positions[key := Seen(st.positions, key) + 1])
  }

  /** How a ply ends: with a result, or with the game going on. */
  datatype Outcome = Ended(winner: Color, st: GameState) | Continues(st: GameState)

  /** One ply after the request was sent, checked in the order of run:
      giving up, an illegal move, the clock, then (after the move is played
      and the turn passes) no legal reply, then a threefold repetition. */
  ghost function Ply(st: GameState, reply: Reply): (o: Outcome)
    requires ValidState(st)
    ensures ValidState(o.st)
  {
    var mover := st.turn;
    if GivesUp(reply.move) then Ended(Opponent(mover), st)
    else if !MoveLegal(reply.move, mover, st.board) then Ended(Opponent(mover), st)
    else
      var charged := Charge(st, reply.elapsedMs);
      if TimedOut(charged, mover) then Ended(Opponent(mover), charged)
      else
        Verdict(Apply(charged, reply))
  }

  /** Ply case by case, in run's order. */
  lemma PlyCases(st: GameState, reply: Reply)
    requires ValidState(st)
    ensures GivesUp(reply.move) ==> Ply(st, reply) == Ended(Opponent(st.turn), st)
    ensures !GivesUp(reply.move) && !MoveLegal(reply.move, st.turn, st.board) ==>
      Ply(st, reply) == Ended(Opponent(st.turn), st)
    ensures !GivesUp(reply.move) && MoveLegal(reply.move, st.turn, st.board) && TimedOut(Charge(st, reply.elapsedMs), st.turn) ==>
      Ply(st, reply) == Ended(Opponent(st.turn), Charge(st, reply.elapsedMs))
    ensures !GivesUp(reply.move) && MoveLegal(reply.move, st.turn, st.board) && !TimedOut(Charge(st, reply.elapsedMs), st.turn) ==>
      Ply(st, reply) == Verdict(Apply(Charge(st, reply.elapsedMs), reply))
  {
  }

  lemma VerdictCases(played: GameState)
    requires ValidState(played)
    ensures NoLegalMove(played.turn, played.board) ==>
      Verdict(played) == Ended(if InCheck(played.turn, played.board) then Opponent(played.turn) else NoColor, played)
    ensures !NoLegalMove(played.turn, played.board) ==>
      var counted := Count(played);
      Verdict(played) == if Seen(counted.positions, PositionKey(counted.board, counted.turn)) >= 3 then Ended(NoColor, counted) else Continues(counted)
  {
  }

  /** How a ply ends once the move is played and the turn has passed: the
      side now to move without a legal move loses if in check (the side
      that moved wins) and draws otherwise; else the position is counted
      and a third occurrence draws. */
  ghost function Verdict(played: GameState): (o: Outcome)
    requires ValidState(played)
    ensures ValidState(o.st)
  {
    if NoLegalMove(played.turn, played.board) then
      Ended(if InCheck(played.turn, played.board) then Opponent(played.turn) else NoColor, played)
    else
      var counted := Count(played);
      if Seen(counted.positions, PositionKey(counted.board, counted.turn)) >= 3 then Ended(NoColor, counted)
      else Continues(counted)
  }

  /** A reply past the end of the list: the engine is gone, which go reports
      as "resign". */
  function NextReply(replies: seq<Reply>): Reply {
    if replies == [] then Reply("resign", 0, 0, 0) else replies[0]
  }

  function LaterReplies(replies: seq<Reply>): seq<Reply> {
    if replies == [] then [] else replies[1..]
  }

  /** run from ply moveCount on: more than 300 plies is a draw. */
  ghost function Play(st: GameState, replies: seq<Reply>, moveCount: nat): (o: Outcome)
    requires ValidState(st) && 1 <= moveCount <= 301
    ensures o.Ended? && ValidState(o.st)
    decreases 301 - moveCount
  {
    if moveCount > 300 then Ended(NoColor, st)
    else
      match Ply(Asked(st), NextReply(replies))
      case Ended(w, s) => Ended(w, s)
      case Continues(s) => Play(s, LaterReplies(replies), moveCount + 1)
  }

  // ---------------------------------------------------------------------------
  // What the verdict order promises

  /** Giving up, or an engine that is gone, loses at once; the clock is not
      touched. */
  lemma GiveUpLoses(st: GameState, replies: seq<Reply>, moveCount: nat)
    requires ValidState(st) && 1 <= moveCount <= 300
    requires GivesUp(NextReply(replies).move)
    ensures Play(st, replies, moveCount) == Ended(Opponent(st.turn), Asked(st))
  {
  }

  /** A move the validator refuses loses at once; the clock is not touched. */
  lemma IllegalLoses(st: GameState, replies: seq<Reply>, moveCount: nat)
    requires ValidState(st) && 1 <= moveCount <= 300
    requires !GivesUp(NextReply(replies).move) && !MoveLegal(NextReply(replies).move, st.turn, st.board)
    ensures Play(st, replies, moveCount) == Ended(Opponent(st.turn), Asked(st))
  {
  }

  /** A legal move that leaves the mover's time at or below minus the
      buffer loses, after the clock was charged for it. */
  lemma TimeLoss(st: GameState, replies: seq<Reply>, moveCount: nat)
    requires ValidState(st) && 1 <= moveCount <= 300 && st.clock.Some?
    requires var reply := NextReply(replies);
      && !GivesUp(reply.move) && MoveLegal(reply.move, st.turn, st.board)
      && TM.OutOfTime(TM.Charged(st.clock.value.tc, st.turn, reply.elapsedMs), st.turn, st.clock.value.bufferMs)
    ensures Play(st, replies, moveCount) == Ended(Opponent(st.turn), Charge(Asked(st), NextReply(replies).elapsedMs))
  {
  }

  /** When the side to move next has no legal reply, the side that just
      moved wins if it gave check, and otherwise the game is drawn. */
  lemma NoReplyVerdict(st: GameState, reply: Reply)
    requires ValidState(st)
    requires !GivesUp(reply.move) && MoveLegal(reply.move, st.turn, st.board)
    requires !TimedOut(Charge(st, reply.elapsedMs), st.turn)
    requires var played := Apply(Charge(st, reply.elapsedMs), reply); NoLegalMove(played.turn, played.board)
    ensures var played := Apply(Charge(st, reply.elapsedMs), reply);
      Ply(st, reply) == Ended(if InCheck(played.turn, played.board) then st.turn else NoColor, played)
  {
  }

  /** A legal move in time that leaves the opponent a legal reply but
      brings about a position seen for the third time draws the game. */
  lemma RepetitionDraw(st: GameState, reply: Reply)
    requires ValidState(st)
    requires !GivesUp(reply.move) && MoveLegal(reply.move, st.turn, st.board)
    requires !TimedOut(Charge(st, reply.elapsedMs), st.turn)
    requires var played := Apply(Charge(st, reply.elapsedMs), reply);
      && !NoLegalMove(played.turn, played.board)
      && Seen(played.positions, PositionKey(played.board, played.turn)) >= 2
    ensures Ply(st, reply) == Ended(NoColor, Count(Apply(Charge(st, reply.elapsedMs), reply)))
  {
  }

  /** The histories and the turn after a ply are those before it, or those
      after the move was played. */
  lemma PlyHistories(st: GameState, reply: Reply)
    requires ValidState(st)
    ensures var s := Ply(st, reply).st;
      var a := Apply(Charge(st, reply.elapsedMs), reply);
      || (s.trueMoves, s.redMoves, s.blackMoves, s.turn) == (st.trueMoves, st.redMoves, st.blackMoves, st.turn)
      || (s.trueMoves, s.redMoves, s.blackMoves, s.turn) == (a.trueMoves, a.redMoves, a.blackMoves, a.turn)
    ensures Ply(st, reply).Continues? ==>
      var s := Ply(st, reply).st;
      var a := Apply(Charge(st, reply.elapsedMs), reply);
      (s.trueMoves, s.redMoves, s.blackMoves, s.turn) == (a.trueMoves, a.redMoves, a.blackMoves, a.turn)
  {
    var c := Charge(st, reply.elapsedMs);
    if !GivesUp(reply.move) && MoveLegal(reply.move, st.turn, st.board) && !TimedOut(c, st.turn) {
      var a := Apply(c, reply);
      assert Ply(st, reply).st == a || Ply(st, reply).st == Count(a);
    }
  }

  /** A ply records at most one move, and exactly one when the game goes on. */
  lemma PlyRecordsOneMove(st: GameState, reply: Reply)
    requires ValidState(st)
    ensures |Ply(st, reply).st.trueMoves| <= |st.trueMoves| + 1
    ensures Ply(st, reply).Continues? ==> |Ply(st, reply).st.trueMoves| == |st.trueMoves| + 1
  {
    PlyHistories(st, reply);
  }

  /** At most 300 plies are played. */
  lemma {:induction false} AtMost300Plies(st: GameState, replies: seq<Reply>, moveCount: nat)
    requires ValidState(st) && 1 <= moveCount <= 301
    ensures |Play(st, replies, moveCount).st.trueMoves| <= |st.trueMoves| + 301 - moveCount
    decreases 301 - moveCount
  {
    if moveCount <= 300 {
      var asked := Asked(st);
      PlyRecordsOneMove(asked, NextReply(replies));
      match Ply(asked, NextReply(replies))
      case Ended(_, _) =>
      case Continues(s) =>
        AtMost300Plies(s, LaterReplies(replies), moveCount + 1);
    }
  }

  /** The side to move at ply i (counting from 0) of a game whose first
      mover is `first`. */
  function SideAt(first: Color, i: nat): Color {
    if i % 2 == 0 then first else Opponent(first)
  }

  /** Every entry of the red and black histories is the copy of the true
      move for the side that made it, and the side to move alternates. */
  ghost predicate HistoriesAgree(trueMoves: seq<string>, redMoves: seq<string>, blackMoves: seq<string>,
                                 turn: Color, first: Color)
  {
    && |redMoves| == |trueMoves| && |blackMoves| == |trueMoves|
    && turn == SideAt(first, |trueMoves|)
    && forall i :: 0 <= i < |trueMoves| ==>
         && redMoves[i] == RedCopy(trueMoves[i], SideAt(first, i))
         && blackMoves[i] == BlackCopy(trueMoves[i], SideAt(first, i))
  }

  ghost predicate CopiesAgree(st: GameState, first: Color) {
    HistoriesAgree(st.trueMoves, st.redMoves, st.blackMoves, st.turn, first)
  }

  /** Recording one more move for the side to move keeps the histories in
      agreement. */
  lemma HistoriesExtend(t: seq<string>, r: seq<string>, b: seq<string>, turn: Color, first: Color, text: string)
    requires first != NoColor && HistoriesAgree(t, r, b, turn, first)
    ensures HistoriesAgree(t + [text], r + [RedCopy(text, turn)], b + [BlackCopy(text, turn)], Opponent(turn), first)
  {
    var n := |t|;
    assert SideAt(first, n + 1) == Opponent(SideAt(first, n));
    var t', r', b' := t + [text], r + [RedCopy(text, turn)], b + [BlackCopy(text, turn)];
    forall i | 0 <= i < |t'|
      ensures r'[i] == RedCopy(t'[i], SideAt(first, i)) && b'[i] == BlackCopy(t'[i], SideAt(first, i))
    {
      if i < n {
        assert t'[i] == t[i] && r'[i] == r[i] && b'[i] == b[i];
      }
    }
  }

  lemma PlyKeepsCopies(st: GameState, reply: Reply, first: Color)
    requires ValidState(st) && first != NoColor && CopiesAgree(st, first)
    ensures CopiesAgree(Ply(st, reply).st, first)
  {
    PlyHistories(st, reply);
    var c := Charge(st, reply.elapsedMs);
    var p := ProcessMoveOf(c.board, c.pool, c.turn, reply.move, reply.flipRnd, reply.captureRnd);
    HistoriesExtend(st.trueMoves, st.redMoves, st.blackMoves, st.turn, first, p.text);
  }

  /** Throughout a game, the histories agree with the true moves and the
      side that made each. */
  lemma {:induction false} PlayKeepsCopies(st: GameState, replies: seq<Reply>, moveCount: nat, first: Color)
    requires ValidState(st) && 1 <= moveCount <= 301 && first != NoColor && CopiesAgree(st, first)
    ensures CopiesAgree(Play(st, replies, moveCount).st, first)
    decreases 301 - moveCount
  {
    if moveCount <= 300 {
      var asked := Asked(st);
      assert CopiesAgree(asked, first);
      PlyKeepsCopies(asked, NextReply(replies), first);
      match Ply(asked, NextReply(replies))
      case Ended(_, _) =>
      case Continues(s) =>
        PlayKeepsCopies(s, LaterReplies(replies), moveCount + 1, first);
    }
  }

  // ---------------------------------------------------------------------------
  // The game object

  /** What is left of the board field to write from row r, column c on, with
      `run` empty squares pending. */
  function RestOfBoard(b: Board, r: nat, c: nat, run: nat): string
    requires IsBoard(b) && r < 10 && c <= 9
  {
    RowGen(b[r], c, run) + Separator(r) + RowsFrom(b, r + 1)
  }

  lemma RowsStart(b: Board, r: nat)
    requires IsBoard(b) && r < 10
    ensures RowsFrom(b, r) == RestOfBoard(b, r, 0, 0)
  {
  }

  lemma RestEmpty(b: Board, r: nat, c: nat, run: nat)
    requires IsBoard(b) && r < 10 && c < 9 && b[r][c] == Empty
    ensures RestOfBoard(b, r, c, run) == RestOfBoard(b, r, c + 1, run + 1)
  {
  }

  lemma RestPiece(b: Board, r: nat, c: nat, run: nat)
    requires IsBoard(b) && r < 10 && c < 9 && b[r][c] != Empty
    ensures RestOfBoard(b, r, c, run) == (Flush(run) + [CharOf(b[r][c])]) + RestOfBoard(b, r, c + 1, 0)
  {
    var x, y := RowGen(b[r], c + 1, 0), Separator(r) + RowsFrom(b, r + 1);
    assert RowGen(b[r], c, run) == Flush(run) + [CharOf(b[r][c])] + x;
    Assoc(Flush(run) + [CharOf(b[r][c])], x, y);
  }

  lemma RestEnd(b: Board, r: nat, run: nat)
    requires IsBoard(b) && r < 10
    ensures RestOfBoard(b, r, 9, run) == (Flush(run) + Separator(r)) + RowsFrom(b, r + 1)
  {
  }

  /** ParseFenValue in terms of the fields and the board read from the
      first. */
  lemma FenValueOf(fen: string, parts: seq<string>, b: Board, ok: bool)
    requires parts == SplitFields(fen) && |parts| >= 3
    requires ok <==> ParseBoard(parts[0]).Some?
    requires ok ==> ParseBoard(parts[0]) == Some(b)
    ensures ParseFenValue(fen) ==
      if ok then Some(FenValue(b, if parts[1] == "w" then Red else Black, PiecePool.PoolCounts(parts[2]))) else None
  {
  }

  lemma KeyOf(boardPart: string, b: Board, turn: Color)
    requires IsBoard(b) && boardPart == BoardText(b)
    ensures boardPart + " " + SideText(turn) == PositionKey(b, turn)
  {
  }

  lemma Assoc(a: string, x: string, y: string)
    ensures a + (x + y) == (a + x) + y
  {
  }

  class Game {
    const initialFen: string
    const pool: PiecePool.Pool
    const clock: TM.TimeManager?
    var board: Board
    var turn: Color
    var trueMoves: seq<string>
    var redMoves: seq<string>
    var blackMoves: seq<string>
    var positions: map<string, int>
    var requests: seq<Request>
    /** Set when the constructor's parse_fen threw. */
    var failed: bool

    predicate Valid()
      reads this, pool
    {
      && IsBoard(board)
      && pool.Valid()
      && turn != NoColor
      && |redMoves| == |trueMoves|
      && |blackMoves| == |trueMoves|
    }

    /** The game as a value. */
    function State(): GameState
      reads this, pool, clock
    {
      GameState(board, turn, pool.counts,
                if clock == null then None else Some(Clock(clock.tc, clock.timeoutBufferMs)),
                trueMoves, redMoves, blackMoves, positions, requests)
    }

    constructor(fen: string, tc: Option<TM.TimeControl>, bufferMs: int)
      ensures Valid() && fresh(pool) && (clock != null ==> fresh(clock))
      ensures initialFen == fen
      ensures clock != null <==> tc.Some?
      ensures clock != null ==> clock.tc == tc.value && clock.timeoutBufferMs == bufferMs
      ensures failed <==> ParseFenValue(fen).None?
      ensures !failed ==> ParseFenValue(fen) == Some(FenValue(board, turn, pool.counts))
      ensures !failed ==> positions == map[PositionKey(board, turn) := 1]
      ensures trueMoves == [] && redMoves == [] && blackMoves == [] && requests == []
    {
      initialFen := fen;
      pool := new PiecePool.Pool();
      if tc.Some? {
        clock := new TM.TimeManager(tc.value, bufferMs);
      } else {
        clock := null;
      }
      EmptyBoardIsBoard();
      board := EmptyBoard;
      turn := Red;
      trueMoves, redMoves, blackMoves := [], [], [];
      positions := map[];
      requests := [];
      new;
      var ok := ParseFen(fen);
      failed := !ok;
    }

    /** parse_fen: on success the board, side and pool are those of the FEN
        and the position is counted once more; on failure the histories,
        side, pool and table are untouched. */
    method ParseFen(fen: string) returns (ok: bool)
      requires Valid()
      modifies this, pool
      ensures Valid()
      ensures ok <==> ParseFenValue(fen).Some?
      ensures ok ==> ParseFenValue(fen) == Some(FenValue(board, turn, pool.counts))
      ensures ok ==> positions == old(positions)[PositionKey(board, turn) := Seen(old(positions), PositionKey(board, turn)) + 1]
      ensures !ok ==> turn == old(turn) && pool.counts == old(pool.counts) && positions == old(positions)
      ensures trueMoves == old(trueMoves) && redMoves == old(redMoves) && blackMoves == old(blackMoves)
      ensures requests == old(requests) && failed == old(failed)
    {
      var parts := SplitFields(fen);
      if |parts| < 3 {
        EmptyBoardIsBoard();
        board := EmptyBoard;
        return false;
      }
      var b, boardOk := ReadBoardPart(parts[0]);
      FenValueOf(fen, parts, b, boardOk);
      board := b;
      if !boardOk {
        return false;
      }
      turn := if parts[1] == "w" then Red else Black;
      pool.FromString(parts[2]);
      var count := CountPosition();
      ok := true;
    }

    /** The position reached, keyed by board field and side to move, is
        counted once more. */
    method CountPosition() returns (count: int)
      requires IsBoard(board)
      modifies this
      ensures State() == Count(old(State())) && failed == old(failed)
      ensures count == Seen(positions, PositionKey(board, turn))
    {
      var key := FenKey();
      positions := positions[key := Seen(positions, key) + 1];
      count := positions[key];
    }

    /** The repetition key: the board field, a blank, and 'w' or 'b'. */
    method FenKey() returns (key: string)
      requires IsBoard(board)
      ensures key == PositionKey(board, turn)
    {
      var boardPart := GenerateFenBoardPart();
      key := boardPart + " " + (if turn == Red then "w" else "b");
      KeyOf(boardPart, board, turn);
    }

    /** The board loop of parse_fen: the board the field describes, or
        (when a character is not in the table) the board filled so far. */
    static method ReadBoardPart(part: string) returns (b: Board, ok: bool)
      ensures IsBoard(b)
      ensures ok <==> ParseBoard(part).Some?
      ensures ok ==> ParseBoard(part) == Some(b)
    {
      EmptyBoardIsBoard();
      var row, col := 0, 0;
      b := EmptyBoard;
      var i := 0;
      while i < |part|
        invariant 0 <= i <= |part|
        invariant ValidCursor(Cursor(row, col, b))
        invariant ParseBoardFrom(Cursor(0, 0, EmptyBoard), part) == ParseBoardFrom(Cursor(row, col, b), part[i..])
      {
        var ch := part[i];
        assert part[i..][0] == ch && part[i..][1..] == part[i + 1..];
        if ch == '/' {
          row, col := row + 1, 0;
        } else if IsDigit(ch) {
          col := col + (ch as int - '0' as int);
        } else if col < 9 && row < 10 {
          var piece := if ch == 'x' || ch == 'X' then Some(Hidden) else PieceOf(ch);
          if piece.None? {
            return b, false;
          }
          b := Place(b, row, col, piece.value);
          col := col + 1;
        }
        i := i + 1;
      }
      return b, true;
    }

    /** get_piece_at_coord. */
    method GetPieceAtCoord(coord: string) returns (p: Piece)
      requires IsBoard(board)
      ensures p == PieceAt(board, coord)
    {
      if |coord| != 2 {
        return Empty;
      }
      var col := coord[0] as int - 'a' as int;
      var row := 9 - (coord[1] as int - '0' as int);
      if row < 0 || row > 9 || col < 0 || col > 8 {
        return Empty;
      }
      return board[row][col];
    }

    /** set_piece_at_coord. */
    method SetPieceAtCoord(coord: string, p: Piece)
      requires IsBoard(board)
      modifies this
      ensures board == SetAt(old(board), coord, p)
      ensures turn == old(turn) && trueMoves == old(trueMoves) && redMoves == old(redMoves)
      ensures blackMoves == old(blackMoves) && positions == old(positions) && requests == old(requests)
      ensures failed == old(failed)
    {
      if |coord| != 2 {
        return;
      }
      var col := coord[0] as int - 'a' as int;
      var row := 9 - (coord[1] as int - '0' as int);
      if row < 0 || row > 9 || col < 0 || col > 8 {
        return;
      }
      board := Place(board, row, col, p);
    }

    /** generate_fen_board_part. */
    method GenerateFenBoardPart() returns (s: string)
      requires IsBoard(board)
      ensures s == BoardText(board)
    {
      var b := board;
      s := "";
      var r := 0;
      while r < 10
        invariant 0 <= r <= 10
        invariant s + RowsFrom(b, r) == BoardText(b)
      {
        RowsStart(b, r);
        var run := 0;
        var c := 0;
        while c < 9
          invariant 0 <= c <= 9
          invariant s + RestOfBoard(b, r, c, run) == BoardText(b)
        {
          var p := b[r][c];
          if p == Empty {
            RestEmpty(b, r, c, run);
            run := run + 1;
          } else {
            RestPiece(b, r, c, run);
            Assoc(s, Flush(run) + [CharOf(p)], RestOfBoard(b, r, c + 1, 0));
            Assoc(s, Flush(run), [CharOf(p)]);
            if run > 0 {
              s := s + NatToString(run);
              run := 0;
            } else {
              assert s + Flush(run) == s;
            }
            s := s + [CharOf(p)];
          }
          c := c + 1;
        }
        RestEnd(b, r, run);
        Assoc(s, Flush(run) + Separator(r), RowsFrom(b, r + 1));
        Assoc(s, Flush(run), Separator(r));
        var s' := s;
        if run > 0 {
          s := s + NatToString(run);
        }
        assert s == s' + Flush(run);
        var s'' := s;
        if r < 9 {
          s := s + "/";
        }
        assert s == s'' + Separator(r);
        r := r + 1;
      }
    }

    /** generate_fen. */
    method GenerateFen() returns (fen: string)
      requires Valid()
      ensures fen == FenText(board, turn, pool.counts)
    {
      fen := GenerateFenBoardPart();
      fen := fen + " ";
      fen := fen + (if turn == Red then "w" else "b");
      fen := fen + " ";
      var poolText := pool.ToString();
      fen := fen + poolText;
      fen := fen + " 0 1";
    }

    /** process_move: the move text with its suffixes; the board and pool
        move on as ProcessMoveOf says. */
    method ProcessMove(move: string, flipRnd: nat, captureRnd: nat) returns (text: string)
      requires Valid()
      modifies this, pool
      ensures Valid()
      ensures Played(text, board, pool.counts) == ProcessMoveOf(old(board), old(pool.counts), turn, move, flipRnd, captureRnd)
      ensures turn == old(turn) && trueMoves == old(trueMoves) && redMoves == old(redMoves)
      ensures blackMoves == old(blackMoves) && positions == old(positions) && requests == old(requests)
      ensures failed == old(failed)
    {
      if |move| != 4 {
        return move;
      }
      var fromCoord := move[0..2];
      var toCoord := move[2..4];
      var moving := GetPieceAtCoord(fromCoord);
      var target := GetPieceAtCoord(toCoord);
      var landing, flipText := FlipPart(move, moving, flipRnd);
      var captureText := CapturePart(move, target, captureRnd);
      text := move + flipText + captureText;
      SetPieceAtCoord(toCoord, landing);
      SetPieceAtCoord(fromCoord, Empty);
    }

    /** Part A of process_move: a face-down mover is drawn for, with the
        side's pawn when the pool has nothing left, and its letter is added
        to the move; any other mover stays itself and adds nothing. */
    method FlipPart(move: string, moving: Piece, rnd: nat) returns (landing: Piece, suffix: string)
      requires IsBoard(board) && |move| == 4 && pool.Valid() && moving == PieceAt(board, move[0..2])
      modifies pool
      ensures pool.Valid()
      ensures FlipOf(board, old(pool.counts), turn, move, rnd) == (pool.counts, landing)
      ensures FlipSuffix(board, old(pool.counts), turn, move, rnd) == suffix
    {
      landing, suffix := moving, "";
      if moving == Hidden {
        var drawn := pool.DrawRandomPiece(turn, rnd);
        if drawn.Some? {
          landing := drawn.value;
        } else {
          landing := if turn == Red then RedPawn else BlkPawn;
        }
        suffix := [CharOf(landing)];
      }
    }

    /** Part B of process_move: a face-down target is drawn for the
        opponent and its letter added, unless the opponent's pool is empty. */
    method CapturePart(move: string, target: Piece, rnd: nat) returns (suffix: string)
      requires IsBoard(board) && |move| == 4 && pool.Valid() && target == PieceAt(board, move[2..4])
      modifies pool
      ensures pool.Valid()
      ensures CaptureOf(board, old(pool.counts), turn, move, rnd).1 == pool.counts
      ensures CaptureSuffix(board, old(pool.counts), turn, move, rnd) == suffix
    {
      suffix := "";
      if target == Hidden {
        var drawn := pool.DrawRandomPiece(Opponent(turn), rnd);
        if drawn.Some? {
          suffix := [CharOf(drawn.value)];
        }
      }
    }

    /** add_move_to_histories: the true move, Red's copy and Black's copy
        are appended. */
    method AddMoveToHistories(trueMove: string, mover: Color)
      modifies this
      ensures trueMoves == old(trueMoves) + [trueMove]
      ensures redMoves == old(redMoves) + [RedCopy(trueMove, mover)]
      ensures blackMoves == old(blackMoves) + [BlackCopy(trueMove, mover)]
      ensures board == old(board) && turn == old(turn) && positions == old(positions)
      ensures requests == old(requests) && failed == old(failed)
    {
      trueMoves := trueMoves + [trueMove];
      var redMove, blackMove := trueMove, trueMove;
      if |trueMove| > 4 {
        var last := trueMove[|trueMove| - 1];
        if mover == Black && IsUpper(last) {
          redMove := redMove[..|redMove| - 1];
        } else if mover == Red && IsLower(last) {
          blackMove := blackMove[..|blackMove| - 1];
        }
      }
      redMoves := redMoves + [redMove];
      blackMoves := blackMoves + [blackMove];
    }

    /** get_moves_for_color. */
    method GetMovesForColor(color: Color) returns (moves: seq<string>)
      ensures moves == HistoryFor(State(), color)
    {
      moves := if color == Red then redMoves else blackMoves;
    }

    /** One pass of run's loop body after the move limit: the request to the
        side to move, then the verdicts in run's order.  `ended` and `winner`
        are run's return; the new state is what Ply says. */
    method PlayPly(reply: Reply) returns (ended: bool, winner: Color)
      requires Valid()
      modifies this, pool, clock
      ensures Valid()
      ensures Ply(Asked(old(State())), reply) == if ended then Ended(winner, State()) else Continues(State())
    {
      SendRequest();
      ghost var asked := State();
      PlyCases(asked, reply);
      var mover := turn;
      if reply.move == "resign" || reply.move == "" || reply.move == "(none)" {
        return true, Opponent(mover);
      }
      var legal := IsMoveLegal(reply.move, mover, board);
      if !legal {
        return true, Opponent(mover);
      }
      if clock != null {
        var out := ChargeClock(reply.elapsedMs);
        if out {
          return true, Opponent(mover);
        }
      }
      ghost var charged := State();
      assert charged == Charge(asked, reply.elapsedMs);
      PlayMove(reply);
      ended, winner := Conclude();
    }

    /** The end of run's loop body: mate or stalemate of the side now to
        move, then the repetition count of the new position. */
    method Conclude() returns (ended: bool, winner: Color)
      requires Valid()
      modifies this
      ensures Valid()
      ensures Verdict(old(State())) == if ended then Ended(winner, State()) else Continues(State())
    {
      VerdictCases(State());
      var none := IsCheckmateOrStalemate(turn, board);
      if none {
        var check := IsInCheck(turn, board);
        return true, if check then Opponent(turn) else NoColor;
      }
      var count := CountPosition();
      if count >= 3 {
        return true, NoColor;
      }
      return false, NoColor;
    }

    /** The side to move is given its history and the go command. */
    method SendRequest()
      requires Valid()
      modifies this
      ensures Valid() && State() == Asked(old(State())) && failed == old(failed)
    {
      var moves := GetMovesForColor(turn);
      var goCommand := "go movetime 2000";
      if clock != null {
        goCommand := clock.GetGoCommand();
      }
      requests := requests + [Request(turn, moves, goCommand)];
    }

    /** The time check of run: the mover's clock is charged, then read. */
    method ChargeClock(elapsedMs: nat) returns (out: bool)
      requires clock != null
      modifies clock
      ensures State() == Charge(old(State()), elapsedMs)
      ensures out == TimedOut(State(), turn)
    {
      clock.Update(turn, elapsedMs);
      out := clock.IsOutOfTime(turn);
    }

    /** A valid move is played, recorded in the histories, and the turn
        passes. */
    method PlayMove(reply: Reply)
      requires Valid()
      modifies this, pool
      ensures Valid() && State() == Apply(old(State()), reply) && failed == old(failed)
    {
      var mover := turn;
      var text := ProcessMove(reply.move, reply.flipRnd, reply.captureRnd);
      AddMoveToHistories(text, mover);
      turn := Opponent(mover);
    }

    /** run: plies until one ends the game or the 300-move limit is passed;
        replies past the end of the list are "resign". */
    method Run(replies: seq<Reply>) returns (winner: Color)
      requires Valid()
      modifies this, pool, clock
      ensures Valid()
      ensures Play(old(State()), replies, 1) == Ended(winner, State())
    {
      var moveCount := 1;
      var rest := replies;
      while true
        invariant Valid() && 1 <= moveCount <= 301
        invariant Play(old(State()), replies, 1) == Play(State(), rest, moveCount)
        decreases 301 - moveCount
      {
        if moveCount > 300 {
          return NoColor;
        }
        var reply := NextReply(rest);
        rest := LaterReplies(rest);
        var ended;
        ended, winner := PlayPly(reply);
        if ended {
          return;
        }
        moveCount := moveCount + 1;
      }
    }
  }
}

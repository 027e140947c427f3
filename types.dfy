// The Color and Piece enumerations and the two constant char <-> piece tables.

module Types {
  import opened Text

  datatype Color = Red | Black | NoColor

  /** The pieces in the order the enumeration declares them: the seven red
      types, the seven black types in the same type order, then the face-down
      marker and the empty square. */
  datatype Piece =
    | RedKing | RedAdvisor | RedBishop | RedKnight | RedRook | RedCannon | RedPawn
    | BlkKing | BlkAdvisor | BlkBishop | BlkKnight | BlkRook | BlkCannon | BlkPawn
    | Hidden | Empty

  /** The enumeration value of a piece. */
  function Ordinal(p: Piece): (n: nat)
    ensures n < 16
  {
    match p
    case RedKing => 0
    case RedAdvisor => 1
    case RedBishop => 2
    case RedKnight => 3
    case RedRook => 4
    case RedCannon => 5
    case RedPawn => 6
    case BlkKing => 7
    case BlkAdvisor => 8
    case BlkBishop => 9
    case BlkKnight => 10
    case BlkRook => 11
    case BlkCannon => 12
    case BlkPawn => 13
    case Hidden => 14
    case Empty => 15
  }

  /** `static_cast<Piece>(n)`. */
  function PieceOfOrdinal(n: nat): (p: Piece)
    requires n < 16
    ensures Ordinal(p) == n
  {
    match n
    case 0 => RedKing
    case 1 => RedAdvisor
    case 2 => RedBishop
    case 3 => RedKnight
    case 4 => RedRook
    case 5 => RedCannon
    case 6 => RedPawn
    case 7 => BlkKing
    case 8 => BlkAdvisor
    case 9 => BlkBishop
    case 10 => BlkKnight
    case 11 => BlkRook
    case 12 => BlkCannon
    case 13 => BlkPawn
    case 14 => Hidden
    case _ => Empty
  }

  /** The enumeration value determines the piece. */
  lemma OrdinalInjective(p: Piece, q: Piece)
    ensures Ordinal(p) == Ordinal(q) ==> p == q
  {
  }

  predicate IsRedPiece(p: Piece) { Ordinal(p) <= Ordinal(RedPawn) }

  predicate IsBlackPiece(p: Piece) { Ordinal(BlkKing) <= Ordinal(p) <= Ordinal(BlkPawn) }

  const CharToPiece: map<char, Piece> := map[
    'K' := RedKing, 'A' := RedAdvisor, 'B' := RedBishop,
    'N' := RedKnight, 'R' := RedRook, 'C' := RedCannon,
    'P' := RedPawn, 'k' := BlkKing, 'a' := BlkAdvisor,
    'b' := BlkBishop, 'n' := BlkKnight, 'r' := BlkRook,
    'c' := BlkCannon, 'p' := BlkPawn, 'x' := Hidden]

  const PieceToChar: map<Piece, char> := map[
    RedKing := 'K', RedAdvisor := 'A', RedBishop := 'B',
    RedKnight := 'N', RedRook := 'R', RedCannon := 'C',
    RedPawn := 'P', BlkKing := 'k', BlkAdvisor := 'a',
    BlkBishop := 'b', BlkKnight := 'n', BlkRook := 'r',
    BlkCannon := 'c', BlkPawn := 'p', Hidden := 'x']

  /** piece_to_char.at(p), by cases; it agrees with the table. */
  function CharOf(p: Piece): (c: char)
    requires p != Empty
  {
    match p
    case RedKing => 'K'
    case RedAdvisor => 'A'
    case RedBishop => 'B'
    case RedKnight => 'N'
    case RedRook => 'R'
    case RedCannon => 'C'
    case RedPawn => 'P'
    case BlkKing => 'k'
    case BlkAdvisor => 'a'
    case BlkBishop => 'b'
    case BlkKnight => 'n'
    case BlkRook => 'r'
    case BlkCannon => 'c'
    case BlkPawn => 'p'
    case Hidden => 'x'
  }

  /** char_to_piece lookup, by cases; None where the table has no entry. */
  function PieceOf(c: char): (r: Option<Piece>)
    ensures r.Some? ==> r.value != Empty && CharOf(r.value) == c
  {
    match c
    case 'K' => Some(RedKing)
    case 'A' => Some(RedAdvisor)
    case 'B' => Some(RedBishop)
    case 'N' => Some(RedKnight)
    case 'R' => Some(RedRook)
    case 'C' => Some(RedCannon)
    case 'P' => Some(RedPawn)
    case 'k' => Some(BlkKing)
    case 'a' => Some(BlkAdvisor)
    case 'b' => Some(BlkBishop)
    case 'n' => Some(BlkKnight)
    case 'r' => Some(BlkRook)
    case 'c' => Some(BlkCannon)
    case 'p' => Some(BlkPawn)
    case 'x' => Some(Hidden)
    case _ => None
  }

  /** CharOf and PieceOf are the two constant tables. */
  lemma CharOfIsTable(p: Piece)
    requires p != Empty
    ensures p in PieceToChar && PieceToChar[p] == CharOf(p)
  {
  }

  lemma PieceOfIsTable(c: char)
    ensures PieceOf(c).Some? <==> c in CharToPiece
    ensures PieceOf(c).Some? ==> CharToPiece[c] == PieceOf(c).value
  {
  }

  /** Looking up a piece's character gives the piece back. */
  lemma PieceOfCharOf(p: Piece)
    requires p != Empty
    ensures PieceOf(CharOf(p)) == Some(p)
  {
  }

  /** Every piece except the empty square has a character. */
  lemma PieceToCharDomain(p: Piece)
    ensures p in PieceToChar <==> p != Empty
  {
  }

  /** The two tables are inverse to each other over their fifteen entries. */
  lemma TablesInverse()
    ensures forall c :: c in CharToPiece ==>
      CharToPiece[c] in PieceToChar && PieceToChar[CharToPiece[c]] == c
    ensures forall p :: p in PieceToChar ==>
      PieceToChar[p] in CharToPiece && CharToPiece[PieceToChar[p]] == p
  {
    CharsRoundTrip();
    PiecesRoundTrip();
  }

  lemma CharsRoundTrip()
    ensures forall c :: c in CharToPiece ==>
      CharToPiece[c] in PieceToChar && PieceToChar[CharToPiece[c]] == c
  {
  }

  lemma PiecesRoundTrip()
    ensures forall p :: p in PieceToChar ==>
      PieceToChar[p] in CharToPiece && CharToPiece[PieceToChar[p]] == p
  {
  }

  /** Upper-case characters name exactly the red pieces, lower-case ones the
      black pieces; only 'x' names the face-down marker; neither 'X' nor the
      empty square is in either table. */
  lemma TableCases(c: char)
    requires c in CharToPiece
    ensures IsUpper(c) <==> IsRedPiece(CharToPiece[c])
    ensures IsLower(c) && c != 'x' <==> IsBlackPiece(CharToPiece[c])
    ensures CharToPiece[c] == Hidden <==> c == 'x'
    ensures CharToPiece[c] != Empty
    ensures !IsDigit(c) && c != '/' && !IsSpace(c)
  {
  }

  lemma NotInTables()
    ensures 'X' !in CharToPiece && Empty !in PieceToChar
    ensures forall c :: c in CharToPiece ==> CharToPiece[c] != Empty
  {
  }

  /** The red block and the black block list the types in the same order, so
      subtracting 7 from a black piece gives the red piece of the same type
      (the character case-folded). */
  lemma EnumBlocksAligned(p: Piece)
    requires IsBlackPiece(p)
    ensures IsRedPiece(PieceOfOrdinal(Ordinal(p) - 7))
    ensures PieceToChar[PieceOfOrdinal(Ordinal(p) - 7)] as int == PieceToChar[p] as int - 32
  {
  }
}

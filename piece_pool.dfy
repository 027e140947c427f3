// The pool of face-down pieces: how many of each type are still unrevealed,
// its text form in the position string, and random draws from it.

module PiecePool {
  import opened Text
  import opened Types

  type Counts = map<Piece, int>

  /** What the pool can ever hold: real piece types (never the empty square)
      with counts of a single decimal digit. */
  predicate ValidCounts(m: Counts) {
    forall p :: p in m ==> p != Empty && 0 <= m[p] <= 9
  }

  // ---------------------------------------------------------------------------
  // Parsing (from_string)

  /** One two-character entry: a known piece character and a digit set that
      piece's count; anything else is skipped. */
  function Entry(m: Counts, pieceChar: char, countChar: char): (m': Counts)
    ensures PieceOf(pieceChar).Some? && IsDigit(countChar) ==>
      m' == m[PieceOf(pieceChar).value := countChar as int - '0' as int]
    ensures !(PieceOf(pieceChar).Some? && IsDigit(countChar)) ==> m' == m
  {
    match PieceOf(pieceChar)
    case Some(p) => if IsDigit(countChar) then m[p := countChar as int - '0' as int] else m
    case None => m
  }

  /** The entries of s taken two characters at a time from the left; a later
      entry for the same piece overrides an earlier one. */
  function ParsePairs(s: string): (m: Counts)
    ensures ValidCounts(m)
    decreases |s|
  {
    if |s| < 2 then map[]
    else
      var m := ParsePairs(s[..|s| - 2]);
      Entry(m, s[|s| - 2], s[|s| - 1])
  }

  /** from_string: an odd-length text leaves the pool empty. */
  function PoolCounts(s: string): (m: Counts)
    ensures ValidCounts(m)
    ensures |s| % 2 != 0 ==> m == map[]
  {
    if |s| % 2 != 0 then map[] else ParsePairs(s)
  }

  // ---------------------------------------------------------------------------
  // Printing (to_string)

  /** to_string's fixed order, red and black alternating per type. */
  const PoolOrder: seq<Piece> := [RedRook, BlkRook, RedAdvisor, BlkAdvisor, RedCannon, BlkCannon,
                                  RedKnight, BlkKnight, RedBishop, BlkBishop, RedPawn, BlkPawn]

  /** The position of a piece in PoolOrder; 12 for the king, the face-down
      marker and the empty square, which to_string never prints. */
  function OrderIndex(p: Piece): (i: nat)
    ensures i <= 12
    ensures i < 12 ==> PoolOrder[i] == p
    ensures i == 12 <==> p == RedKing || p == BlkKing || p == Hidden || p == Empty
  {
    match p
    case RedRook => 0
    case BlkRook => 1
    case RedAdvisor => 2
    case BlkAdvisor => 3
    case RedCannon => 4
    case BlkCannon => 5
    case RedKnight => 6
    case BlkKnight => 7
    case RedBishop => 8
    case BlkBishop => 9
    case RedPawn => 10
    case BlkPawn => 11
    case _ => 12
  }

  lemma PoolOrderPieces(i: int)
    requires 0 <= i < |PoolOrder|
    ensures PoolOrder[i] != Empty && OrderIndex(PoolOrder[i]) == i
  {
  }

  /** A piece with a positive count prints as its character followed by the count. */
  function Item(m: Counts, p: Piece): (s: string)
    requires p != Empty
    ensures p in m && m[p] > 0 ==> |s| >= 2 && s[0] == CharOf(p) && AllDigits(s[1..])
    ensures !(p in m && m[p] > 0) ==> s == ""
  {
    if p in m && m[p] > 0 then [CharOf(p)] + NatToString(m[p]) else ""
  }

  /** The items of the first k pieces of PoolOrder. */
  function PoolStringUpTo(m: Counts, k: nat): string
    requires k <= |PoolOrder|
  {
    if k == 0 then "" else PoolStringUpTo(m, k - 1) + Item(m, PoolOrder[k - 1])
  }

  /** to_string. */
  function PoolString(m: Counts): string {
    PoolStringUpTo(m, |PoolOrder|)
  }

  /** A count of one digit prints as exactly two characters. */
  lemma ItemOfDigit(m: Counts, p: Piece)
    requires p != Empty && p in m && 1 <= m[p] <= 9
    ensures Item(m, p) == [CharOf(p), DigitChar(m[p])]
  {
  }

  // ---------------------------------------------------------------------------
  // Drawing

  /** is_red is isupper of the piece's character, so the face-down marker 'x'
      falls on Black's side; a colour other than Red or Black matches nothing. */
  predicate Matches(color: Color, p: Piece)
    requires p != Empty
  {
    var isRed := IsUpper(CharOf(p));
    (color == Red && isRed) || (color == Black && !isRed)
  }

  predicate Drawable(m: Counts, color: Color, p: Piece) {
    p in m && m[p] > 0 && p != Empty && Matches(color, p)
  }

  /** The copies of p that draw_random_piece pushes: one per unit of count
      when p is drawable, none otherwise. */
  function Copies(m: Counts, color: Color, p: Piece): seq<Piece> {
    if Drawable(m, color, p) then seq(m[p], _ => p) else []
  }

  /** The candidate list draw_random_piece builds from the pieces ps, in
      that order. */
  function Collect(m: Counts, color: Color, ps: seq<Piece>): seq<Piece> {
    if ps == [] then [] else Collect(m, color, ps[..|ps| - 1]) + Copies(m, color, ps[|ps| - 1])
  }

  /** Every piece in the order of the enumeration, the key order of the
      pool's map. */
  const EnumOrder: seq<Piece> := [
    RedKing, RedAdvisor, RedBishop, RedKnight, RedRook, RedCannon, RedPawn,
    BlkKing, BlkAdvisor, BlkBishop, BlkKnight, BlkRook, BlkCannon, BlkPawn, Hidden, Empty]

  lemma EnumOrderEnumerates(q: Piece)
    ensures q in EnumOrder
    ensures forall i, j :: 0 <= i < j < |EnumOrder| ==> EnumOrder[i] != EnumOrder[j]
  {
  }

  /** The candidates of draw_random_piece: the map walked in key order. */
  function Available(m: Counts, color: Color): seq<Piece> {
    Collect(m, color, EnumOrder)
  }

  lemma {:induction false} CopiesMultiplicity(k: nat, p: Piece, q: Piece)
    ensures multiset(seq(k, _ => p))[q] == if q == p then k else 0
  {
    if k > 0 {
      assert seq(k, _ => p) == seq(k - 1, _ => p) + [p];
      CopiesMultiplicity(k - 1, p, q);
    }
  }

  lemma CopiesOf(m: Counts, color: Color, p: Piece, q: Piece)
    ensures multiset(Copies(m, color, p))[q] == if q == p && Drawable(m, color, p) then m[p] else 0
  {
    if Drawable(m, color, p) {
      CopiesMultiplicity(m[p], p, q);
    }
  }

  lemma {:induction false} CollectMultiplicity(m: Counts, color: Color, ps: seq<Piece>, q: Piece)
    requires forall i, j :: 0 <= i < j < |ps| ==> ps[i] != ps[j]
    ensures multiset(Collect(m, color, ps))[q] == if q in ps && Drawable(m, color, q) then m[q] else 0
  {
    if ps != [] {
      var init := ps[..|ps| - 1];
      var p := ps[|ps| - 1];
      assert ps == init + [p];
      assert multiset(Collect(m, color, init) + Copies(m, color, p)) ==
        multiset(Collect(m, color, init)) + multiset(Copies(m, color, p));
      CollectMultiplicity(m, color, init, q);
      CopiesOf(m, color, p, q);
      assert q in ps <==> q in init || q == p;
      assert q == p ==> q !in init;
    }
  }

  /** Each drawable piece appears in the candidate list exactly as often as
      its count says, and nothing else appears. */
  lemma AvailableMultiplicity(m: Counts, color: Color, q: Piece)
    ensures multiset(Available(m, color))[q] == if Drawable(m, color, q) then m[q] else 0
  {
    EnumOrderEnumerates(q);
    CollectMultiplicity(m, color, EnumOrder, q);
  }

  /** Every candidate has a positive count and the requested colour. */
  lemma AvailableAreDrawable(m: Counts, color: Color, i: int)
    requires 0 <= i < |Available(m, color)|
    ensures Drawable(m, color, Available(m, color)[i])
  {
    var q := Available(m, color)[i];
    AvailableMultiplicity(m, color, q);
    assert q in multiset(Available(m, color));
  }

  /** A draw fails exactly when the pool holds nothing of that colour. */
  lemma AvailableEmptyIff(m: Counts, color: Color)
    ensures Available(m, color) == [] <==> forall p :: !Drawable(m, color, p)
  {
    if Available(m, color) != [] {
      AvailableAreDrawable(m, color, 0);
    } else {
      forall p ensures !Drawable(m, color, p) {
        AvailableMultiplicity(m, color, p);
      }
    }
  }

  /** The face-down marker, should the pool hold it, is drawn for Black. */
  lemma HiddenEntryIsBlack(m: Counts)
    requires Hidden in m && m[Hidden] > 0
    ensures Drawable(m, Black, Hidden) && !Drawable(m, Red, Hidden)
  {
  }

  lemma NoColorDrawsNothing(m: Counts)
    ensures Available(m, NoColor) == []
  {
    forall p ensures !Drawable(m, NoColor, p) {
    }
    AvailableEmptyIff(m, NoColor);
  }

  /** The pool after drawing: if the list is empty nothing changes; otherwise
      the candidate at index rnd mod the list's length is drawn and its count
      drops by one. */
  function Draw(m: Counts, color: Color, rnd: nat): (r: (Option<Piece>, Counts))
    ensures Available(m, color) == [] ==> r == (None, m)
    ensures r.0.Some? ==> Drawable(m, color, r.0.value) && r.1 == m[r.0.value := m[r.0.value] - 1]
  {
    var avail := Available(m, color);
    if avail == [] then (None, m)
    else
      var p := avail[rnd % |avail|];
      AvailableAreDrawable(m, color, rnd % |avail|);
      (Some(p), m[p := m[p] - 1])
  }

  /** A draw keeps the pool well formed and takes exactly one unit from it. */
  lemma DrawPreservesValid(m: Counts, color: Color, rnd: nat)
    requires ValidCounts(m)
    ensures ValidCounts(Draw(m, color, rnd).1)
    ensures Draw(m, color, rnd).0.None? <==> forall p :: !Drawable(m, color, p)
    ensures Draw(m, color, rnd).0.Some? ==>
      var p := Draw(m, color, rnd).0.value;
      Draw(m, color, rnd).1[p] + 1 == m[p] &&
      forall q :: q in m && q != p ==> Draw(m, color, rnd).1[q] == m[q]
  {
    AvailableEmptyIff(m, color);
  }

  /** Every candidate can be drawn: the random index reaches all of them. */
  lemma EveryCandidateReachable(m: Counts, color: Color, i: nat)
    requires i < |Available(m, color)|
    ensures Draw(m, color, i).0 == Some(Available(m, color)[i])
  {
  }

  /** The inner loop of draw_random_piece: k copies of p at the end. */
  method PushCopies(s: seq<Piece>, p: Piece, k: nat) returns (r: seq<Piece>)
    ensures r == s + seq(k, _ => p)
  {
    r := s;
    for i := 0 to k
      invariant r == s + seq(i, _ => p)
    {
      r := r + [p];
    }
  }

  /** The first half of draw_random_piece: every drawable piece of the
      colour, once per unit of its count, in the map's key order. */
  method CollectAvailable(m: Counts, color: Color) returns (available: seq<Piece>)
    ensures available == Available(m, color)
  {
    available := [];
    for n := 0 to |EnumOrder|
      invariant available == Collect(m, color, EnumOrder[..n])
    {
      assert EnumOrder[..n + 1][..n] == EnumOrder[..n];
      available := AddCopies(available, m, color, EnumOrder[n]);
    }
    assert EnumOrder[..|EnumOrder|] == EnumOrder;
  }

  /** One turn of the collecting loop: the copies of p, if it is drawable. */
  method AddCopies(s: seq<Piece>, m: Counts, color: Color, p: Piece) returns (r: seq<Piece>)
    ensures r == s + Copies(m, color, p)
  {
    r := s;
    if p != Empty {
      // piece_to_char and char_to_piece agree on every piece the pool holds
      PieceOfCharOf(p);
    }
    if p in m && m[p] > 0 && p != Empty && PieceOf(CharOf(p)).Some? {
      var isRed := IsUpper(CharOf(p));
      if (color == Red && isRed) || (color == Black && !isRed) {
        r := PushCopies(s, p, m[p]);
      }
    }
  }

  // ---------------------------------------------------------------------------
  // Round trip

  /** A pool to_string prints faithfully: only the twelve listed types, each
      with a count of one digit. */
  predicate CanonicalCounts(m: Counts) {
    forall p :: p in m ==> OrderIndex(p) < 12 && 1 <= m[p] <= 9
  }

  function Restrict(m: Counts, k: nat): Counts {
    map p | p in m && OrderIndex(p) < k :: m[p]
  }

  /** Each printed item of a canonical pool is two characters long. */
  lemma {:induction false} PoolStringEven(m: Counts, k: nat)
    requires forall p :: p in m ==> 1 <= m[p] <= 9
    requires k <= |PoolOrder|
    ensures |PoolStringUpTo(m, k)| % 2 == 0
  {
    if k > 0 {
      PoolStringEven(m, k - 1);
      PoolOrderPieces(k - 1);
      var p := PoolOrder[k - 1];
      ItemLength(m, p);
      var x := PoolStringUpTo(m, k - 1);
      assert |PoolStringUpTo(m, k)| == |x| + |Item(m, p)|;
      EvenPlus(|x|, |Item(m, p)|);
    }
  }

  lemma EvenPlus(a: nat, b: nat)
    requires a % 2 == 0 && (b == 0 || b == 2)
    ensures (a + b) % 2 == 0
  {
  }

  lemma ItemLength(m: Counts, p: Piece)
    requires p != Empty && (p in m ==> 1 <= m[p] <= 9)
    ensures |Item(m, p)| == if p in m then 2 else 0
  {
    if p in m {
      ItemOfDigit(m, p);
    }
  }

  lemma RestrictStep(m: Counts, k: nat, p: Piece)
    requires 0 < k <= |PoolOrder| && OrderIndex(p) == k - 1
    ensures p in m ==> Restrict(m, k - 1)[p := m[p]] == Restrict(m, k)
    ensures p !in m ==> Restrict(m, k - 1) == Restrict(m, k)
  {
    forall q | OrderIndex(q) == k - 1 ensures q == p {
      assert PoolOrder[k - 1] == q;
    }
    if p in m {
      assert Restrict(m, k - 1)[p := m[p]].Keys == Restrict(m, k).Keys;
    } else {
      assert Restrict(m, k - 1).Keys == Restrict(m, k).Keys;
    }
  }

  /** One more printed item adds exactly that piece's entry. */
  lemma ParseOneMore(m: Counts, k: nat)
    requires CanonicalCounts(m) && 0 < k <= |PoolOrder|
    requires ParsePairs(PoolStringUpTo(m, k - 1)) == Restrict(m, k - 1)
    ensures ParsePairs(PoolStringUpTo(m, k)) == Restrict(m, k)
  {
    var p := PoolOrder[k - 1];
    assert OrderIndex(p) == k - 1;
    RestrictStep(m, k, p);
    var x := PoolStringUpTo(m, k - 1);
    if p in m {
      ItemOfDigit(m, p);
      assert PoolStringUpTo(m, k) == x + [CharOf(p), DigitChar(m[p])];
      ParseItem(x, p, m[p]);
    } else {
      assert PoolStringUpTo(m, k) == x + "";
      assert x + "" == x;
    }
  }

  /** Parsing a printed item after x overrides x's entry for that piece. */
  lemma ParseItem(x: string, p: Piece, n: int)
    requires p != Empty && 1 <= n <= 9
    ensures ParsePairs(x + [CharOf(p), DigitChar(n)]) == ParsePairs(x)[p := n]
  {
    var c := CharOf(p);
    var d := DigitChar(n);
    var s := x + [c, d];
    assert s[..|s| - 2] == x && s[|s| - 2] == c && s[|s| - 1] == d;
    assert ParsePairs(s) == Entry(ParsePairs(x), c, d);
    PieceOfCharOf(p);
  }

  lemma {:induction false} ParsePrintPrefix(m: Counts, k: nat)
    requires CanonicalCounts(m) && k <= |PoolOrder|
    ensures ParsePairs(PoolStringUpTo(m, k)) == Restrict(m, k)
  {
    if k == 0 {
      assert Restrict(m, 0) == map[];
    } else {
      ParsePrintPrefix(m, k - 1);
      ParseOneMore(m, k);
    }
  }

  /** from_string undoes to_string on every pool it can print faithfully. */
  lemma ParsePrintRoundTrip(m: Counts)
    requires CanonicalCounts(m)
    ensures PoolCounts(PoolString(m)) == m
  {
    PoolStringEven(m, |PoolOrder|);
    ParsePrintPrefix(m, |PoolOrder|);
    assert Restrict(m, |PoolOrder|) == m;
  }

  /** A pool text in to_string's form, every piece before position k of
      PoolOrder: pairs of a listed piece's character and a digit 1..9, the
      pieces strictly in PoolOrder.  It is read from the right, as
      from_string lets a later pair win. */
  predicate CanonicalBelow(s: string, k: nat)
    decreases |s|
  {
    if s == [] then true
    else
      |s| >= 2 && PieceOf(s[|s| - 2]).Some? &&
      var i := OrderIndex(PieceOf(s[|s| - 2]).value);
      i < k && '1' <= s[|s| - 1] <= '9' && CanonicalBelow(s[..|s| - 2], i)
  }

  /** The pool texts to_string prints: no king, no face-down marker, no
      zero, no repeated piece, and the pieces in R r A a C c N n B b P p order. */
  predicate CanonicalString(s: string) {
    CanonicalBelow(s, |PoolOrder|)
  }

  /** Pieces from position j on print nothing when the pool holds none of them. */
  lemma {:induction false} PrintBeyond(m: Counts, j: nat, k: nat)
    requires j <= k <= |PoolOrder|
    requires forall p :: p in m ==> OrderIndex(p) < j
    ensures PoolStringUpTo(m, k) == PoolStringUpTo(m, j)
    decreases k
  {
    if k > j {
      PrintBeyond(m, j, k - 1);
      PoolOrderPieces(k - 1);
      var x := PoolStringUpTo(m, k - 1);
      assert Item(m, PoolOrder[k - 1]) == "";
      assert x + "" == x;
    }
  }

  /** The first k items depend only on the entries of the first k pieces. */
  lemma {:induction false} PrintAgrees(m: Counts, m': Counts, k: nat)
    requires k <= |PoolOrder|
    requires forall p :: OrderIndex(p) < k ==> (p in m <==> p in m') && (p in m ==> m[p] == m'[p])
    ensures PoolStringUpTo(m, k) == PoolStringUpTo(m', k)
  {
    if k > 0 {
      PrintAgrees(m, m', k - 1);
      PoolOrderPieces(k - 1);
    }
  }

  /** A canonical text has pairs only, and parses to distinct listed pieces
      before position k with counts 1..9. */
  lemma {:induction false} ParseBelowShape(s: string, k: nat)
    requires k <= |PoolOrder| && CanonicalBelow(s, k)
    ensures |s| % 2 == 0
    ensures forall p :: p in ParsePairs(s) ==> OrderIndex(p) < k && 1 <= ParsePairs(s)[p] <= 9
    decreases |s|
  {
    if s != [] {
      var x := s[..|s| - 2];
      ParseBelowShape(x, OrderIndex(PieceOf(s[|s| - 2]).value));
      assert ParsePairs(s) == Entry(ParsePairs(x), s[|s| - 2], s[|s| - 1]);
      EvenPlus(|x|, 2);
    }
  }

  lemma {:induction false} PrintParseBelow(s: string, k: nat)
    requires k <= |PoolOrder| && CanonicalBelow(s, k)
    ensures PoolStringUpTo(ParsePairs(s), k) == s
    decreases |s|
  {
    if s == [] {
      PrintBeyond(map[], 0, k);
    } else {
      var x, c, d := LastTwo(s);
      PrintParseBelow(x, OrderIndex(PieceOf(c).value));
      PrintParseStep(x, c, d, k);
    }
  }

  /** A text of two or more characters split before its last pair. */
  lemma LastTwo(s: string) returns (x: string, c: char, d: char)
    requires |s| >= 2
    ensures x == s[..|s| - 2] && c == s[|s| - 2] && d == s[|s| - 1] && s == x + [c, d]
  {
    x, c, d := s[..|s| - 2], s[|s| - 2], s[|s| - 1];
  }

  /** One pair after a canonical text that prints back as itself. */
  lemma PrintParseStep(x: string, c: char, d: char, k: nat)
    requires k <= |PoolOrder| && PieceOf(c).Some? && OrderIndex(PieceOf(c).value) < k && '1' <= d <= '9'
    requires CanonicalBelow(x, OrderIndex(PieceOf(c).value))
    requires PoolStringUpTo(ParsePairs(x), OrderIndex(PieceOf(c).value)) == x
    ensures PoolStringUpTo(ParsePairs(x + [c, d]), k) == x + [c, d]
  {
    var p := PieceOf(c).value;
    var s := x + [c, d];
    assert s[..|s| - 2] == x;
    ParseBelowShape(x, OrderIndex(p));
    var n := d as int - '0' as int;
    assert ParsePairs(s) == ParsePairs(x)[p := n];
    PrintOneMore(ParsePairs(x), p, n, k);
    assert DigitChar(n) == d;
  }

  /** Adding a piece later in PoolOrder than every held one appends its item. */
  lemma PrintOneMore(m: Counts, p: Piece, n: int, k: nat)
    requires OrderIndex(p) < k <= |PoolOrder| && 1 <= n <= 9
    requires forall q :: q in m ==> OrderIndex(q) < OrderIndex(p)
    ensures PoolStringUpTo(m[p := n], k) == PoolStringUpTo(m, OrderIndex(p)) + [CharOf(p), DigitChar(n)]
  {
    var i := OrderIndex(p);
    var m' := m[p := n];
    PrintBeyond(m', i + 1, k);
    PrintAgrees(m, m', i);
    ItemOfDigit(m', p);
    assert PoolStringUpTo(m', i + 1) == PoolStringUpTo(m', i) + Item(m', PoolOrder[i]);
  }

  /** to_string undoes from_string on every text it prints. */
  lemma PrintParseRoundTrip(s: string)
    requires CanonicalString(s)
    ensures CanonicalCounts(PoolCounts(s))
    ensures PoolString(PoolCounts(s)) == s
  {
    ParseBelowShape(s, |PoolOrder|);
    PrintParseBelow(s, |PoolOrder|);
  }

  lemma {:induction false} PrintCanonicalBelow(m: Counts, k: nat)
    requires CanonicalCounts(m) && k <= |PoolOrder|
    ensures CanonicalBelow(PoolStringUpTo(m, k), k)
  {
    if k > 0 {
      PrintCanonicalBelow(m, k - 1);
      var x := PoolStringUpTo(m, k - 1);
      var p := PoolOrder[k - 1];
      PoolOrderPieces(k - 1);
      if p in m {
        ItemOfDigit(m, p);
        CanonicalAppend(x, p, m[p], k);
      } else {
        assert x + "" == x;
        CanonicalWiden(x, k - 1, k);
      }
    }
  }

  /** A listed piece's pair after a canonical text of earlier pieces. */
  lemma CanonicalAppend(x: string, p: Piece, n: int, k: nat)
    requires OrderIndex(p) < k <= |PoolOrder| && 1 <= n <= 9 && CanonicalBelow(x, OrderIndex(p))
    ensures CanonicalBelow(x + [CharOf(p), DigitChar(n)], k)
  {
    var s := x + [CharOf(p), DigitChar(n)];
    assert s[..|s| - 2] == x;
    PieceOfCharOf(p);
  }

  /** A text canonical below j is canonical below any later position. */
  lemma CanonicalWiden(x: string, j: nat, k: nat)
    requires j <= k && CanonicalBelow(x, j)
    ensures CanonicalBelow(x, k)
  {
  }

  /** Every pool to_string prints faithfully prints as a canonical text, so
      the two round trips together make printing a bijection between
      canonical pools and canonical texts. */
  lemma PrintIsCanonical(m: Counts)
    requires CanonicalCounts(m)
    ensures CanonicalString(PoolString(m))
  {
    PrintCanonicalBelow(m, |PoolOrder|);
  }

  // ---------------------------------------------------------------------------
  // The pool object

  class Pool {
    var counts: Counts

    predicate Valid()
      reads this
    {
      ValidCounts(counts)
    }

    constructor()
      ensures counts == map[] && Valid()
    {
      counts := map[];
    }

    /** from_string: clears the pool, then reads the pairs of an even-length text. */
    method FromString(s: string)
      modifies this
      ensures counts == PoolCounts(s) && Valid()
    {
      counts := map[];
      if |s| % 2 != 0 {
        return;
      }
      var i := 0;
      while i < |s|
        invariant 0 <= i <= |s| && i % 2 == 0
        invariant counts == ParsePairs(s[..i])
        decreases |s| - i
      {
        var pieceChar := s[i];
        var countChar := s[i + 1];
        assert s[..i + 2][..i] == s[..i];
        var piece := PieceOf(pieceChar);
        if piece.Some? && IsDigit(countChar) {
          counts := counts[piece.value := countChar as int - '0' as int];
        }
        i := i + 2;
      }
      assert s[..|s|] == s;
    }

    /** to_string, in PoolOrder. */
    method ToString() returns (s: string)
      ensures s == PoolString(counts)
    {
      s := "";
      for i := 0 to |PoolOrder|
        invariant s == PoolStringUpTo(counts, i)
      {
        var p := PoolOrder[i];
        PoolOrderPieces(i);
        if p in counts && counts[p] > 0 {
          s := s + ([CharOf(p)] + NatToString(counts[p]));
        }
      }
    }

    /** draw_random_piece; rnd stands for the generator's output and picks
      the candidate at index rnd mod the number of candidates. */
    method DrawRandomPiece(color: Color, rnd: nat) returns (drawn: Option<Piece>)
      requires Valid()
      modifies this
      ensures Valid()
      ensures (drawn, counts) == Draw(old(counts), color, rnd)
    {
      var m := counts;
      var available := CollectAvailable(m, color);
      if available == [] {
        return None;
      }
      var piece := available[rnd % |available|];
      DrawPreservesValid(m, color, rnd);
      counts := m[piece := m[piece] - 1];
      return Some(piece);
    }
  }
}

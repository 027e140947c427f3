// Character classes, number formatting and the istream-style scanning that the
// tournament manager borrows from the C++ standard library.  Strings are
// sequences of `char`; only the ASCII behaviour of the C locale is modelled.

module Text {

  datatype Option<+T> = None | Some(value: T)

  // ---------------------------------------------------------------------------
  // Character classes (<cctype> in the "C" locale)

  predicate IsDigit(c: char) { '0' <= c <= '9' }

  predicate IsUpper(c: char) { 'A' <= c <= 'Z' }

  predicate IsLower(c: char) { 'a' <= c <= 'z' }

  /** isspace: blank, tab, newline, vertical tab, form feed, carriage return. */
  predicate IsSpace(c: char) {
    c == ' ' || c == '\t' || c == '\n' || c == '\r' || c as int == 11 || c as int == 12
  }

  predicate AllDigits(s: string) {
    forall i :: 0 <= i < |s| ==> IsDigit(s[i])
  }

  predicate NoSpace(s: string) {
    forall i :: 0 <= i < |s| ==> !IsSpace(s[i])
  }

  // ---------------------------------------------------------------------------
  // Decimal formatting (std::to_string, std::format "{}")

  function DigitChar(d: nat): (c: char)
    requires d < 10
    ensures IsDigit(c) && c as int - '0' as int == d
  {
    ('0' as int + d) as char
  }

  /** The decimal value of a string of digits. */
  function DigitsValue(s: string): nat
    requires AllDigits(s)
  {
    if s == [] then 0 else DigitsValue(s[..|s| - 1]) * 10 + (s[|s| - 1] as int - '0' as int)
  }

  function NatToString(n: nat): (s: string)
    ensures |s| >= 1 && AllDigits(s)
    ensures n < 10 ==> s == [DigitChar(n)]
    decreases n
  {
    if n < 10 then [DigitChar(n)] else NatToString(n / 10) + [DigitChar(n % 10)]
  }

  function IntToString(i: int): (s: string)
    ensures |s| >= 1 && NoSpace(s)
  {
    if i < 0 then "-" + NatToString(-i) else NatToString(i)
  }

  /** Reading back the digits of NatToString gives the number. */
  lemma {:induction false} NatToStringValue(n: nat)
    ensures DigitsValue(NatToString(n)) == n
    decreases n
  {
    if n >= 10 {
      var s := NatToString(n);
      NatToStringValue(n / 10);
      assert s[..|s| - 1] == NatToString(n / 10);
    }
  }

  // ---------------------------------------------------------------------------
  // Scanning

  function SkipSpace(s: string): (t: string)
    ensures |t| <= |s|
    ensures t == [] || !IsSpace(t[0])
  {
    if s != [] && IsSpace(s[0]) then SkipSpace(s[1..]) else s
  }

  /** The longest prefix of s made of characters that are not white space. */
  function WordPrefix(s: string): (w: string)
    ensures |w| <= |s| && NoSpace(w)
    ensures |w| < |s| ==> IsSpace(s[|w|])
  {
    if s == [] || IsSpace(s[0]) then [] else [s[0]] + WordPrefix(s[1..])
  }

  /** The longest prefix of s made of digits. */
  function DigitPrefix(s: string): (d: string)
    ensures |d| <= |s| && AllDigits(d)
    ensures |d| < |s| ==> !IsDigit(s[|d|])
  {
    if s == [] || !IsDigit(s[0]) then [] else [s[0]] + DigitPrefix(s[1..])
  }

  /** `stream >> word` on a stream holding s: the word read and what remains,
      or None when only white space is left (the stream fails). */
  function NextToken(s: string): (r: Option<(string, string)>)
    ensures r.Some? ==> |r.value.0| >= 1 && NoSpace(r.value.0) && |r.value.1| < |s|
    ensures r.None? <==> SkipSpace(s) == []
  {
    var t := SkipSpace(s);
    if t == [] then None
    else
      var w := WordPrefix(t);
      Some((w, t[|w|..]))
  }

  /** All white-space separated words of s, in order (repeated `>>` until failure). */
  function Words(s: string): (ws: seq<string>)
    decreases |s|
  {
    match NextToken(s)
    case None => []
    case Some((w, rest)) => [w] + Words(rest)
  }

  const IntMin: int := -0x8000_0000
  const IntMax: int := 0x7FFF_FFFF

  /** The digits at the front of body, as a number, and what follows them. */
  function ReadNat(body: string): (r: Option<(nat, string)>)
    ensures r.Some? ==> |r.value.1| < |body|
  {
    var digits := DigitPrefix(body);
    if digits == [] then None else Some((DigitsValue(digits), body[|digits|..]))
  }

  function InRange(v: int, rest: string): (r: Option<(int, string)>)
    ensures r.Some? <==> IntMin <= v <= IntMax
    ensures r.Some? ==> r.value == (v, rest)
  {
    if v < IntMin || v > IntMax then None else Some((v, rest))
  }

  /** `stream >> n` for an `int` n: skip white space, an optional sign, at least
      one digit; a value outside the 32-bit range fails the stream.  On success
      the value and the rest of the stream (just after the digits). */
  function ReadInt(s: string): (r: Option<(int, string)>)
    ensures r.Some? ==> IntMin <= r.value.0 <= IntMax
    ensures r.Some? ==> |r.value.1| < |s|
  {
    var t := SkipSpace(s);
    if t != [] && t[0] == '-' then
      match ReadNat(t[1..])
      case None => None
      case Some((n, rest)) => InRange(-(n as int), rest)
    else
      var body := if t != [] && t[0] == '+' then t[1..] else t;
      match ReadNat(body)
      case None => None
      case Some((n, rest)) => InRange(n, rest)
  }

  /** std::stoi: the same number syntax as ReadInt, trailing text ignored;
      None stands for the exception it throws. */
  function Stoi(s: string): (r: Option<int>)
    ensures r.Some? <==> ReadInt(s).Some?
    ensures r.Some? ==> r.value == ReadInt(s).value.0
  {
    match ReadInt(s)
    case None => None
    case Some((v, _)) => Some(v)
  }

  /** Formatting an int and reading it back gives the int, and the read stops
      just after the digits. */
  lemma IntToStringReadBack(n: int, rest: string)
    requires IntMin <= n <= IntMax
    requires rest == [] || !IsDigit(rest[0])
    ensures ReadInt(IntToString(n) + rest) == Some((n, rest))
  {
    if n < 0 {
      ReadBackNegative(n, rest);
    } else {
      ReadBackNonNegative(n, rest);
    }
  }

  /** The same, for a number that ends the text. */
  lemma IntReadsBack(n: int)
    requires IntMin <= n <= IntMax
    ensures ReadInt(IntToString(n)) == Some((n, ""))
  {
    IntToStringReadBack(n, "");
    assert IntToString(n) + "" == IntToString(n);
  }

  lemma ReadBackNegative(n: int, rest: string)
    requires IntMin <= n < 0
    requires rest == [] || !IsDigit(rest[0])
    ensures ReadInt(IntToString(n) + rest) == Some((n, rest))
  {
    var k: nat := -n;
    var d := NatToString(k);
    ReadNatOfDigits(k, rest);
    ReadMinus(d + rest, k, rest);
    NegativeText(n, rest);
  }

  lemma NegativeText(n: int, rest: string)
    requires n < 0
    ensures IntToString(n) + rest == "-" + (NatToString(-n) + rest)
  {
    assert IntToString(n) == "-" + NatToString(-n);
  }

  /** Reading after a minus sign negates what the digits read as. */
  lemma ReadMinus(b: string, k: nat, r: string)
    requires ReadNat(b) == Some((k, r))
    ensures ReadInt("-" + b) == InRange(-(k as int), r)
  {
    SkipSpaceNoop("-" + b);
    assert ("-" + b)[1..] == b;
  }

  lemma ReadBackNonNegative(n: int, rest: string)
    requires 0 <= n <= IntMax
    requires rest == [] || !IsDigit(rest[0])
    ensures ReadInt(IntToString(n) + rest) == Some((n, rest))
  {
    ReadNatOfDigits(n, rest);
    SkipSpaceNoop(NatToString(n) + rest);
  }

  /** The digits of NatToString(n) read back as n, stopping just after them. */
  lemma ReadNatOfDigits(n: nat, rest: string)
    requires rest == [] || !IsDigit(rest[0])
    ensures ReadNat(NatToString(n) + rest) == Some((n, rest))
  {
    var d := NatToString(n);
    NatToStringValue(n);
    DigitPrefixOfDigits(d, rest);
    assert (d + rest)[|d|..] == rest;
  }

  lemma SkipSpaceNoop(s: string)
    requires s == [] || !IsSpace(s[0])
    ensures SkipSpace(s) == s
  {
  }

  lemma {:induction false} DigitPrefixOfDigits(d: string, rest: string)
    requires AllDigits(d)
    requires rest == [] || !IsDigit(rest[0])
    ensures DigitPrefix(d + rest) == d
  {
    if d != [] {
      assert (d + rest)[1..] == d[1..] + rest;
      DigitPrefixOfDigits(d[1..], rest);
    }
  }

  /** A word followed by a blank splits off as the first word. */
  lemma WordsCons(w: string, rest: string)
    requires |w| >= 1 && NoSpace(w)
    ensures Words(w + " " + rest) == [w] + Words(rest)
  {
    var s := w + " " + rest;
    assert SkipSpace(s) == s;
    WordPrefixOfWord(w, " " + rest);
    assert s == w + (" " + rest);
    assert s[|w|..] == " " + rest;
    assert SkipSpace(" " + rest) == SkipSpace(rest);
    WordsSkip(" " + rest);
  }

  lemma WordsSkip(s: string)
    requires s != [] && IsSpace(s[0])
    ensures Words(s) == Words(s[1..])
  {
  }

  lemma {:induction false} WordPrefixOfWord(w: string, rest: string)
    requires NoSpace(w)
    requires rest == [] || IsSpace(rest[0])
    ensures WordPrefix(w + rest) == w
  {
    if w != [] {
      assert (w + rest)[1..] == w[1..] + rest;
      WordPrefixOfWord(w[1..], rest);
    }
  }

  /** A single word has itself as its only word. */
  lemma WordsSingle(w: string)
    requires |w| >= 1 && NoSpace(w)
    ensures Words(w) == [w]
  {
    WordPrefixOfWord(w, []);
    assert w + [] == w;
  }

  /** Leading white space of a + x is that of a, unless a is all blank. */
  lemma {:induction false} SkipSpaceAppend(a: string, x: string)
    ensures SkipSpace(a) != [] ==> SkipSpace(a + x) == SkipSpace(a) + x
    ensures SkipSpace(a) == [] ==> SkipSpace(a + x) == SkipSpace(x)
  {
    if a != [] && IsSpace(a[0]) {
      assert (a + x)[1..] == a[1..] + x;
      SkipSpaceAppend(a[1..], x);
    } else if a == [] {
      assert a + x == x;
    }
  }

  /** The first word of t is not lengthened by appending text that starts
      with a blank, nor by anything once the word has already ended. */
  lemma {:induction false} WordPrefixAppend(t: string, x: string)
    requires |WordPrefix(t)| < |t| || x == [] || IsSpace(x[0])
    ensures WordPrefix(t + x) == WordPrefix(t)
  {
    if t == [] {
      assert t + x == x;
    } else if !IsSpace(t[0]) {
      assert (t + x)[1..] == t[1..] + x;
      WordPrefixAppend(t[1..], x);
    }
  }

  lemma WordsOfSkip(s: string)
    ensures Words(s) == Words(SkipSpace(s))
  {
    SkipSpaceNoop(SkipSpace(s));
  }

  /** Splitting at a blank: the words of a + " " + b are those of a followed
      by those of b. */
  lemma {:induction false} WordsSep(a: string, b: string)
    ensures Words(a + " " + b) == Words(a) + Words(b)
    decreases |a|
  {
    if NextToken(a).None? {
      WordsSepBlank(a, b);
    } else {
      WordsSep(NextToken(a).value.1, b);
      WordsSepStep(a, b);
    }
  }

  /** The inductive step of WordsSep: the first word of a is the first word of
      a + " " + b, and the rest follows from what a leaves behind. */
  lemma WordsSepStep(a: string, b: string)
    requires NextToken(a).Some?
    requires Words(NextToken(a).value.1 + " " + b) == Words(NextToken(a).value.1) + Words(b)
    ensures Words(a + " " + b) == Words(a) + Words(b)
  {
    var w := NextToken(a).value.0;
    var r := NextToken(a).value.1;
    NextTokenSep(a, b);
    WordsUnfold(a);
    WordsUnfold(a + " " + b);
    ConsAppend(Words(a), Words(a + " " + b), Words(r + " " + b), Words(r), Words(b), w);
  }

  lemma ConsAppend<T>(xs: seq<T>, xys: seq<T>, rys: seq<T>, rs: seq<T>, ys: seq<T>, x: T)
    requires xs == [x] + rs && xys == [x] + rys && rys == rs + ys
    ensures xys == xs + ys
  {
  }

  lemma WordsUnfold(s: string)
    requires NextToken(s).Some?
    ensures Words(s) == [NextToken(s).value.0] + Words(NextToken(s).value.1)
  {
  }

  lemma WordsSepBlank(a: string, b: string)
    requires SkipSpace(a) == []
    ensures Words(a + " " + b) == Words(b)
  {
    var s := a + " " + b;
    assert s == a + (" " + b);
    SkipSpaceAppend(a, " " + b);
    assert SkipSpace(" " + b) == SkipSpace(b);
    WordsOfSkip(s);
    WordsOfSkip(b);
  }

  lemma NextTokenSep(a: string, b: string)
    requires NextToken(a).Some?
    ensures NextToken(a + " " + b) == Some((NextToken(a).value.0, NextToken(a).value.1 + " " + b))
  {
    var s := a + " " + b;
    assert s == a + (" " + b);
    SkipSpaceAppend(a, " " + b);
    var t := SkipSpace(a);
    var w := WordPrefix(t);
    WordPrefixAppend(t, " " + b);
    assert SkipSpace(s) == t + (" " + b);
    assert (t + (" " + b))[|w|..] == t[|w|..] + " " + b;
  }

  /** Words joined by single blanks. */
  function JoinWords(ws: seq<string>): string
    decreases |ws|
  {
    if ws == [] then "" else if |ws| == 1 then ws[0] else ws[0] + " " + JoinWords(ws[1..])
  }

  /** Splitting words joined by blanks gives the words back. */
  lemma {:induction false} WordsOfJoin(ws: seq<string>)
    requires forall i :: 0 <= i < |ws| ==> |ws[i]| >= 1 && NoSpace(ws[i])
    ensures Words(JoinWords(ws)) == ws
    decreases |ws|
  {
    if |ws| == 1 {
      WordsSingle(ws[0]);
    } else if |ws| > 1 {
      var rest := JoinWords(ws[1..]);
      assert JoinWords(ws) == ws[0] + " " + rest;
      assert forall i :: 0 <= i < |ws[1..]| ==> ws[1..][i] == ws[i + 1];
      WordsOfJoin(ws[1..]);
      WordsCons(ws[0], rest);
      assert [ws[0]] + ws[1..] == ws;
    }
  }

  // ---------------------------------------------------------------------------
  // Searching and trimming (std::string::find, rfind(p, 0), trim)

  predicate OccursAt(s: string, pat: string, i: int) {
    0 <= i && i + |pat| <= |s| && s[i..i + |pat|] == pat
  }

  /** std::string::find(pat, from) with npos as None. */
  function Find(s: string, pat: string, from: nat): (r: Option<nat>)
    requires |pat| >= 1
    ensures r.Some? ==> from <= r.value && OccursAt(s, pat, r.value)
    ensures r.Some? ==> forall j :: from <= j < r.value ==> !OccursAt(s, pat, j)
    ensures r.None? ==> forall j :: from <= j ==> !OccursAt(s, pat, j)
    decreases |s| - from
  {
    if from + |pat| > |s| then None
    else if s[from..from + |pat|] == pat then Some(from)
    else Find(s, pat, from + 1)
  }

  predicate StartsWith(s: string, prefix: string) {
    |prefix| <= |s| && s[..|prefix|] == prefix
  }

  function TrimRight(s: string): (t: string)
    ensures |t| <= |s| && t == s[..|t|]
    ensures t == [] || !IsSpace(t[|t| - 1])
    ensures forall i :: |t| <= i < |s| ==> IsSpace(s[i])
  {
    if s != [] && IsSpace(s[|s| - 1]) then TrimRight(s[..|s| - 1]) else s
  }

  /** Both ends stripped of white space; the middle is kept as it is. */
  function Trim(s: string): (t: string)
    ensures t == [] || (!IsSpace(t[0]) && !IsSpace(t[|t| - 1]))
  {
    TrimRight(SkipSpace(s))
  }
}

// The text side of driving a UCI engine: the setoption commands cut out of an
// option string, the position command, and the reading of one search's
// output.  The child process is replaced by the list of lines it will print;
// what is written to it and what is passed on to the GUI are kept as logs.

module Engine {
  import opened Text

  const NameKeyword: string := "name "
  const ValueKeyword: string := " value "

  // ---------------------------------------------------------------------------
  // apply_uci_options

  /** The option blocks of s from position `from` on.  A block starts at an
      occurrence of "name " and runs up to the next occurrence that starts at
      least five characters later, or to the end of s. */
  function Blocks(s: string, from: nat): (bs: seq<string>)
    ensures forall i :: 0 <= i < |bs| ==> StartsWith(bs[i], NameKeyword)
    decreases |s| - from
  {
    match Find(s, NameKeyword, from)
    case None => []
    case Some(p) =>
      assert s[p..p + 5] == NameKeyword;
      match Find(s, NameKeyword, p + 5)
      case None =>
        assert s[p..][..5] == NameKeyword;
        [s[p..]]
      case Some(q) =>
        assert s[p..q][..5] == NameKeyword;
        [s[p..q]] + Blocks(s, q)
  }

  /** The command a block yields: the text between "name " and the first
      " value " is the option name, everything after it the value, both
      trimmed; no " value ", or an empty name, yields nothing. */
  function BlockCommand(block: string): (r: Option<string>)
    requires StartsWith(block, NameKeyword)
  {
    match Find(block, ValueKeyword, 0)
    case None => None
    case Some(v) =>
      if NamePart(block, v) == [] then None
      else Some(SetOptionCommand(NamePart(block, v), ValuePart(block, v)))
  }

  /** The trimmed option name before a " value " at v.  When that " value "
      starts inside the keyword itself ("name value ..."), the name is empty. */
  function NamePart(block: string, v: nat): string
    requires v + 7 <= |block|
  {
    if v >= 5 then Trim(block[5..v]) else ""
  }

  function ValuePart(block: string, v: nat): string
    requires v + 7 <= |block|
  {
    Trim(block[v + 7..])
  }

  /** The same block as the code computes it: `value_pos - 5` is an unsigned
      length, so for value_pos == 4 it wraps round and substr takes the rest
      of the block as the name. */
  function BlockCommandAsWritten(block: string): (r: Option<string>)
    requires StartsWith(block, NameKeyword)
  {
    match Find(block, ValueKeyword, 0)
    case None => None
    case Some(v) =>
      if NamePartAsWritten(block, v) == [] then None
      else Some(SetOptionCommand(NamePartAsWritten(block, v), ValuePart(block, v)))
  }

  function NamePartAsWritten(block: string, v: nat): string
    requires 5 <= |block| && v + 7 <= |block|
  {
    Trim(if v >= 5 then block[5..v] else block[5..])
  }

  function SetOptionCommand(optName: string, optValue: string): string {
    "setoption name " + optName + " value " + optValue
  }

  /** The commands of the blocks, in order. */
  function Commands(blocks: seq<string>): seq<string>
    requires forall i :: 0 <= i < |blocks| ==> StartsWith(blocks[i], NameKeyword)
  {
    if blocks == [] then [] else BlockCommands(blocks[0]) + Commands(blocks[1..])
  }

  /** The command of one block, as a list of at most one. */
  function BlockCommands(block: string): seq<string>
    requires StartsWith(block, NameKeyword)
  {
    match BlockCommand(block) case None => [] case Some(c) => [c]
  }

  lemma CommandsCons(block: string, blocks: seq<string>)
    requires StartsWith(block, NameKeyword)
    requires forall i :: 0 <= i < |blocks| ==> StartsWith(blocks[i], NameKeyword)
    ensures Commands([block] + blocks) == BlockCommands(block) + Commands(blocks)
  {
    assert ([block] + blocks)[1..] == blocks;
  }

  /** One turn of the loop of apply_uci_options: the block at p is cut out
      up to the next "name ", and its command, if any, comes first. */
  lemma OptionStep(s: string, p: nat, sent: seq<string>, total: seq<string>)
    requires Find(s, NameKeyword, p) == Some(p)
    requires total == sent + Commands(Blocks(s, p))
    ensures var next := Find(s, NameKeyword, p + 5);
      var block := if next.None? then s[p..] else s[p..next.value];
      p + 5 <= |s| && StartsWith(block, NameKeyword)
      && (next.Some? ==> p + 5 <= next.value <= |s| && Find(s, NameKeyword, next.value) == next)
      && (next.None? ==> total == sent + BlockCommands(block))
      && (next.Some? ==> total == sent + BlockCommands(block) + Commands(Blocks(s, next.value)))
  {
    var next := Find(s, NameKeyword, p + 5);
    var block := if next.None? then s[p..] else s[p..next.value];
    BlocksHead(s, p);
    var tail := if next.None? then [] else Blocks(s, next.value);
    CommandsCons(block, tail);
    AppendRegroup(total, sent, BlockCommands(block), Commands(tail), sent + BlockCommands(block));
    assert Commands([]) == [];
  }

  /** Blocks from `from` are the blocks from the first "name " at or after it. */
  lemma BlocksFrom(s: string, from: nat)
    requires Find(s, NameKeyword, from).Some?
    ensures var p := Find(s, NameKeyword, from).value;
      Find(s, NameKeyword, p) == Some(p) && Blocks(s, from) == Blocks(s, p)
  {
    var p := Find(s, NameKeyword, from).value;
    FindFirst(s, NameKeyword, p, p);
    BlocksHead(s, from);
    BlocksHead(s, p);
  }

  /** The setoption commands an option string yields, in input order. */
  function OptionCommands(options: string): (cmds: seq<string>)
    ensures options == [] ==> cmds == []
  {
    if options == [] then [] else Commands(Blocks(options, 0))
  }

  /** The blocks, laid end to end, are the string from the first "name " on;
      with no "name " there are none. */
  lemma {:induction false} BlocksCover(s: string, from: nat)
    ensures Find(s, NameKeyword, from).None? ==> Blocks(s, from) == []
    ensures Find(s, NameKeyword, from).Some? ==>
      Concat(Blocks(s, from)) == s[Find(s, NameKeyword, from).value..]
    decreases |s| - from
  {
    if Find(s, NameKeyword, from).Some? {
      var p := Find(s, NameKeyword, from).value;
      var next := Find(s, NameKeyword, p + 5);
      if next.Some? {
        BlocksCover(s, next.value);
      }
      CoverStep(s, from);
    }
  }

  /** One block of BlocksCover: the first block followed by the rest. */
  lemma CoverStep(s: string, from: nat)
    requires Find(s, NameKeyword, from).Some?
    requires var next := Find(s, NameKeyword, Find(s, NameKeyword, from).value + 5);
      next.Some? && Find(s, NameKeyword, next.value).Some? ==>
        Concat(Blocks(s, next.value)) == s[Find(s, NameKeyword, next.value).value..]
    ensures Concat(Blocks(s, from)) == s[Find(s, NameKeyword, from).value..]
  {
    BlocksHead(s, from);
    var p := Find(s, NameKeyword, from).value;
    var next := Find(s, NameKeyword, p + 5);
    if next.None? {
      JoinLast(s, p);
    } else {
      JoinTail(s, p, next.value, Blocks(s, next.value));
    }
  }

  lemma JoinLast(s: string, p: nat)
    requires p <= |s|
    ensures Concat([s[p..]]) == s[p..]
  {
    ConcatCons(s[p..], []);
    assert s[p..] + [] == s[p..];
  }

  lemma JoinTail(s: string, p: nat, q: nat, tail: seq<string>)
    requires p <= q <= |s| && Concat(tail) == s[q..]
    ensures Concat([s[p..q]] + tail) == s[p..]
  {
    ConcatCons(s[p..q], tail);
    assert s[p..] == s[p..q] + s[q..];
  }

  lemma ConcatCons(x: string, rest: seq<string>)
    ensures Concat([x] + rest) == x + Concat(rest)
  {
    assert ([x] + rest)[1..] == rest;
  }

  function Concat(ss: seq<string>): string {
    if ss == [] then "" else ss[0] + Concat(ss[1..])
  }

  /** Blocks, one step: the block at the first "name " and the blocks after it. */
  lemma BlocksHead(s: string, from: nat)
    requires Find(s, NameKeyword, from).Some?
    ensures var p := Find(s, NameKeyword, from).value;
      var next := Find(s, NameKeyword, p + 5);
      p + 5 <= |s|
      && (next.Some? ==> p + 5 <= next.value <= |s| && Find(s, NameKeyword, next.value) == next)
      && Blocks(s, from) ==
        [if next.None? then s[p..] else s[p..next.value]]
        + (if next.None? then [] else Blocks(s, next.value))
  {
  }

  /** Inside a block, "name " occurs only at its start. */
  lemma {:induction false} BlocksHaveOneName(s: string, from: nat, i: int)
    requires 0 <= i < |Blocks(s, from)|
    ensures forall j :: 0 < j ==> !OccursAt(Blocks(s, from)[i], NameKeyword, j)
    decreases |s| - from
  {
    if i == 0 {
      FirstBlockOneName(s, from);
    } else {
      var q := LaterBlock(s, from, i);
      BlocksHaveOneName(s, q, i - 1);
      OneNameSame(Blocks(s, q)[i - 1], Blocks(s, from)[i]);
    }
  }

  lemma OneNameSame(a: string, b: string)
    requires a == b && forall j :: 0 < j ==> !OccursAt(a, NameKeyword, j)
    ensures forall j :: 0 < j ==> !OccursAt(b, NameKeyword, j)
  {
  }

  lemma FirstBlockOneName(s: string, from: nat)
    requires 0 < |Blocks(s, from)|
    ensures forall j :: 0 < j ==> !OccursAt(Blocks(s, from)[0], NameKeyword, j)
  {
    BlocksHead(s, from);
    var p := Find(s, NameKeyword, from).value;
    var next := Find(s, NameKeyword, p + 5);
    if next.None? {
      NoNameAfter(s, p, |s|);
      assert s[p..|s|] == s[p..];
      OneNameSame(s[p..|s|], Blocks(s, from)[0]);
    } else {
      NoNameAfter(s, p, next.value);
      OneNameSame(s[p..next.value], Blocks(s, from)[0]);
    }
  }

  /** Block i > 0 from `from` is block i - 1 from the start q of the second block. */
  lemma LaterBlock(s: string, from: nat, i: int) returns (q: nat)
    requires 0 < i < |Blocks(s, from)|
    ensures from < q && i - 1 < |Blocks(s, q)| && Blocks(s, from)[i] == Blocks(s, q)[i - 1]
  {
    assert Find(s, NameKeyword, from).Some?;
    BlocksHead(s, from);
    var p := Find(s, NameKeyword, from).value;
    var next := Find(s, NameKeyword, p + 5);
    assert next.Some?;
    q := next.value;
    ConsIndex(s[p..q], Blocks(s, q), i);
  }

  lemma ConsIndex(b: string, bs: seq<string>, i: int)
    requires 0 < i < 1 + |bs|
    ensures ([b] + bs)[i] == bs[i - 1]
  {
  }

  /** A block s[p..q] cut out as Blocks does holds no second "name ". */
  lemma NoNameAfter(s: string, p: nat, q: nat)
    requires OccursAt(s, NameKeyword, p) && p + 5 <= q <= |s|
    requires forall j :: p + 5 <= j < q ==> !OccursAt(s, NameKeyword, j)
    ensures forall j :: 0 < j ==> !OccursAt(s[p..q], NameKeyword, j)
  {
    var b := s[p..q];
    forall j | 0 < j
      ensures !OccursAt(b, NameKeyword, j)
    {
      if j + 5 <= |b| {
        if j < 5 {
          assert b[j..j + 5][0] == s[p..p + 5][j] == NameKeyword[j];
        } else {
          SliceOfSlice(s, p, q, j, j + 5);
          assert !OccursAt(s, NameKeyword, p + j);
        }
      }
    }
  }

  lemma SliceOfSlice(s: string, p: nat, q: nat, i: nat, k: nat)
    requires p <= q <= |s| && i <= k <= q - p
    ensures s[p..q][i..k] == s[p + i..p + k]
  {
    assert forall t :: 0 <= t < k - i ==> s[p..q][i..k][t] == s[p + i + t];
  }

  /** One option given as single words: the command carries the same name and
      value. */
  lemma OneOption(n: string, v: string)
    requires |n| >= 1 && NoSpace(n) && n != "value"
    requires |v| >= 1 && NoSpace(v)
    ensures BlockCommand(NameKeyword + n + ValueKeyword + v) == Some(SetOptionCommand(n, v))
  {
    OneOptionFind(n, v);
    OneOptionParts(n, v);
    BlockCommandOf(NameKeyword + n + ValueKeyword + v, 5 + |n|);
  }

  lemma OneOptionFind(n: string, v: string)
    requires |n| >= 1 && NoSpace(n) && n != "value"
    ensures StartsWith(NameKeyword + n + ValueKeyword + v, NameKeyword)
    ensures Find(NameKeyword + n + ValueKeyword + v, ValueKeyword, 0) == Some(5 + |n|)
  {
    var block := NameKeyword + n + ValueKeyword + v;
    var at := 5 + |n|;
    assert block[..5] == NameKeyword;
    assert block[5..at] == n;
    assert block[at..at + 7] == ValueKeyword;
    FirstValue(block, n);
    FindFirst(block, ValueKeyword, 0, at);
  }

  lemma OneOptionParts(n: string, v: string)
    requires |n| >= 1 && NoSpace(n) && NoSpace(v)
    ensures NamePart(NameKeyword + n + ValueKeyword + v, 5 + |n|) == n
    ensures ValuePart(NameKeyword + n + ValueKeyword + v, 5 + |n|) == v
  {
    var block := NameKeyword + n + ValueKeyword + v;
    var at := 5 + |n|;
    assert block[5..at] == n;
    assert block[at + 7..] == v;
    TrimWord(n);
    TrimWord(v);
    assert ValuePart(block, at) == Trim(block[at + 7..]);
    assert Trim(block[at + 7..]) == Trim(v);
  }

  lemma BlockCommandOf(block: string, at: nat)
    requires StartsWith(block, NameKeyword) && Find(block, ValueKeyword, 0) == Some(at)
    requires NamePart(block, at) != []
    ensures BlockCommand(block) == Some(SetOptionCommand(NamePart(block, at), ValuePart(block, at)))
  {
  }

  /** In "name " + n + " value " ..., with n a single word other than "value",
      the first " value " is the one after n. */
  lemma FirstValue(block: string, n: string)
    requires |n| >= 1 && NoSpace(n) && n != "value"
    requires 5 + |n| + 7 <= |block|
    requires block[..5] == NameKeyword && block[5..5 + |n|] == n
    requires block[5 + |n|..5 + |n| + 7] == ValueKeyword
    ensures forall j :: 0 <= j < 5 + |n| ==> !OccursAt(block, ValueKeyword, j)
  {
    var at := 5 + |n|;
    forall j | 0 <= j < at
      ensures !OccursAt(block, ValueKeyword, j)
    {
      var w := block[j..j + 7];
      if j < 4 {
        assert w[0] == block[..5][j] == NameKeyword[j];
      } else if j > 4 {
        assert w[0] == block[5..at][j - 5] == n[j - 5];
      } else if |n| > 5 {
        assert w[6] == block[5..at][5] == n[5];
      } else if |n| < 5 {
        assert w[at - 4] == block[at];
        assert block[at] == block[at..at + 7][0] == ' ';
        assert ValueKeyword[at - 4] != ' ';
      } else {
        SliceOfSlice(block, j, j + 7, 1, 6);
        assert w[1..6] == block[5..at] == n;
        assert ValueKeyword[1..6] == "value";
      }
    }
  }

  lemma FindFirst(s: string, pat: string, from: nat, at: nat)
    requires |pat| >= 1 && from <= at && OccursAt(s, pat, at)
    requires forall j :: from <= j < at ==> !OccursAt(s, pat, j)
    ensures Find(s, pat, from) == Some(at)
    decreases at - from
  {
    if from < at {
      FindFirst(s, pat, from + 1, at);
    }
  }

  lemma TrimWord(w: string)
    requires NoSpace(w)
    ensures Trim(w) == w
  {
    SkipSpaceNoop(w);
    if w != [] {
      assert !IsSpace(w[|w| - 1]);
    }
  }

  /** As written, "name value 5" becomes a command although its name is
      empty. */
  lemma NameValueQuirk()
    ensures BlockCommandAsWritten("name value 5") == Some(SetOptionCommand("value 5", "5"))
    ensures BlockCommand("name value 5") == None
  {
    QuirkFind();
    QuirkParts();
  }

  /** The wrap-round is the only difference: on every block that does not
      start "name value ", the code's command is the corrected one. */
  lemma BlockCommandAgrees(block: string)
    requires StartsWith(block, NameKeyword) && !StartsWith(block, "name value ")
    ensures BlockCommandAsWritten(block) == BlockCommand(block)
  {
    match Find(block, ValueKeyword, 0)
    case None =>
    case Some(v) =>
      ValueAfterKeyword(block, v);
  }

  /** A " value " inside the keyword can only start at its blank. */
  lemma ValueAfterKeyword(block: string, v: nat)
    requires StartsWith(block, NameKeyword) && OccursAt(block, ValueKeyword, v)
    ensures v >= 5 || StartsWith(block, "name value ")
  {
    if v < 5 {
      assert block[v..v + 7][0] == block[v] == ' ';
      assert block[..5][v] == block[v];
      assert block[..11] == "name value " by {
        forall i | 0 <= i < 11
          ensures block[..11][i] == "name value "[i]
        {
          if i < 5 {
            assert block[..5][i] == block[i];
          } else {
            assert block[v..v + 7][i - 4] == block[i];
          }
        }
      }
    }
  }

  lemma QuirkFind()
    ensures Find("name value 5", ValueKeyword, 0) == Some(4)
  {
    var block := "name value 5";
    assert block[4..11] == ValueKeyword;
    forall j | 0 <= j < 4
      ensures !OccursAt(block, ValueKeyword, j)
    {
      assert block[j..j + 7][0] == block[j] != ' ';
    }
    FindFirst(block, ValueKeyword, 0, 4);
  }

  lemma QuirkParts()
    ensures NamePartAsWritten("name value 5", 4) == "value 5"
    ensures ValuePart("name value 5", 4) == "5"
    ensures NamePart("name value 5", 4) == ""
  {
    var block := "name value 5";
    assert block[5..] == "value 5";
    assert block[11..] == "5";
    TrimWord("5");
    assert SkipSpace("value 5") == "value 5";
    assert TrimRight("value 5") == "value 5";
  }

  // ---------------------------------------------------------------------------
  // set_position

  /** " m1 m2 ..." for the moves in order. */
  function MovesText(moves: seq<string>): string
    decreases |moves|
  {
    if moves == [] then "" else MovesText(moves[..|moves| - 1]) + " " + moves[|moves| - 1]
  }

  function PositionCommand(fen: string, moves: seq<string>): string {
    "position fen " + fen + (if moves == [] then "" else " moves" + MovesText(moves))
  }

  /** A word followed by the moves text splits into that word and the moves. */
  lemma {:induction false} WordsOfMoves(w: string, moves: seq<string>)
    requires |w| >= 1 && NoSpace(w)
    requires forall i :: 0 <= i < |moves| ==> |moves[i]| >= 1 && NoSpace(moves[i])
    ensures Words(w + MovesText(moves)) == [w] + moves
    decreases |moves|
  {
    if moves == [] {
      assert w + "" == w;
      WordsSingle(w);
    } else {
      var init := moves[..|moves| - 1];
      var last := moves[|moves| - 1];
      assert w + MovesText(moves) == (w + MovesText(init)) + " " + last;
      WordsOfMoves(w, init);
      WordsSep(w + MovesText(init), last);
      WordsSingle(last);
      assert [w] + init + [last] == [w] + moves;
    }
  }

  /** The engine reads the position command back as the FEN's fields and,
      when there are any, the keyword "moves" and the moves. */
  lemma PositionCommandWords(fen: string, moves: seq<string>)
    requires forall i :: 0 <= i < |moves| ==> |moves[i]| >= 1 && NoSpace(moves[i])
    ensures Words(PositionCommand(fen, moves)) ==
      ["position", "fen"] + Words(fen) + (if moves == [] then [] else ["moves"] + moves)
  {
    if moves == [] {
      PositionWithoutMoves(fen);
    } else {
      PositionWithMoves(fen, moves);
    }
  }

  lemma PositionWithoutMoves(fen: string)
    ensures Words(PositionCommand(fen, [])) == ["position", "fen"] + Words(fen) + []
  {
    var head := "position fen " + fen;
    HeadWords(fen);
    assert PositionCommand(fen, []) == head + "";
    assert head + "" == head;
    assert Words(head) + [] == Words(head);
  }

  lemma PositionWithMoves(fen: string, moves: seq<string>)
    requires moves != []
    requires forall i :: 0 <= i < |moves| ==> |moves[i]| >= 1 && NoSpace(moves[i])
    ensures Words(PositionCommand(fen, moves)) == ["position", "fen"] + Words(fen) + (["moves"] + moves)
  {
    PositionShape(fen, moves);
    HeadWords(fen);
    WordsOfMoves("moves", moves);
    WordsOfSplit(PositionCommand(fen, moves), "position fen " + fen, "moves" + MovesText(moves),
                 ["position", "fen"] + Words(fen), ["moves"] + moves);
  }

  lemma PositionShape(fen: string, moves: seq<string>)
    requires moves != []
    ensures PositionCommand(fen, moves) == "position fen " + fen + " " + ("moves" + MovesText(moves))
  {
    PositionSplit(fen, MovesText(moves));
  }

  lemma WordsOfSplit(x: string, head: string, tail: string, hw: seq<string>, tw: seq<string>)
    requires x == head + " " + tail && Words(head) == hw && Words(tail) == tw
    ensures Words(x) == hw + tw
  {
    WordsSep(head, tail);
  }

  lemma HeadWords(fen: string)
    ensures Words("position fen " + fen) == ["position", "fen"] + Words(fen)
  {
    var rest := "fen" + " " + fen;
    FenWord(fen);
    PositionWord(rest);
    HeadLiteral(fen);
    ConsTwo("position", "fen", Words(fen));
  }

  lemma FenWord(fen: string)
    ensures Words("fen" + " " + fen) == ["fen"] + Words(fen)
  {
    WordsCons("fen", fen);
  }

  lemma PositionWord(rest: string)
    ensures Words("position" + " " + rest) == ["position"] + Words(rest)
  {
    WordsCons("position", rest);
  }

  lemma ConsTwo<T>(x: T, y: T, zs: seq<T>)
    ensures [x] + ([y] + zs) == [x, y] + zs
  {
  }

  lemma HeadLiteral(fen: string)
    ensures "position fen " + fen == "position" + " " + ("fen" + " " + fen)
  {
    assert "position fen " == "position" + " " + "fen" + " ";
    Regroup("position", " ", "fen", " ", fen);
  }

  lemma AppendRegroup<T>(total: seq<T>, before: seq<T>, one: seq<T>, others: seq<T>, after: seq<T>)
    requires total == before + (one + others) && after == before + one
    ensures total == after + others
  {
  }

  lemma Regroup<T>(a: seq<T>, b: seq<T>, c: seq<T>, d: seq<T>, x: seq<T>)
    ensures a + b + c + d + x == a + b + (c + d + x)
  {
  }

  lemma PositionSplit(fen: string, movesText: string)
    ensures "position fen " + fen + (" moves" + movesText) == "position fen " + fen + " " + ("moves" + movesText)
  {
  }

  // ---------------------------------------------------------------------------
  // go

  /** One line the engine prints, with whether the process is still running
      right after it (only looked at for an empty read). */
  datatype OutputLine = OutputLine(text: string, running: bool)

  /** The last score a search reported, in centipawns. */
  datatype Eval = Eval(cp: int, hasScore: bool)

  const MateScore: int := 10000

  /** Where one turn of the token loop over an info line leaves it: the
      stream has failed or is used up, or the loop goes on from `rest`. */
  datatype Scan = Stop(eval: Eval) | More(rest: string, eval: Eval)

  /** One turn of the loop: a token other than "score" is passed over; after
      "score" the type is read, and "cp N" or "mate M" overwrites the
      evaluation.  A missing token or a number that cannot be read fails the
      stream. */
  function ScanStep(s: string, e: Eval): (r: Scan)
    ensures r.More? ==> |r.rest| < |s|
  {
    match NextToken(s)
    case None => Stop(e)
    case Some((tok, rest)) =>
      if tok != "score" then More(rest, e)
      else
        match NextToken(rest)
        case None => Stop(e)
        case Some((kind, rest2)) =>
          if kind == "cp" then
            match ReadInt(rest2)
            case None => Stop(e)
            case Some((n, rest3)) => More(rest3, Eval(n, true))
          else if kind == "mate" then
            match ReadInt(rest2)
            case None => Stop(e)
            case Some((m, rest3)) => More(rest3, Eval(if m >= 0 then MateScore else -MateScore, true))
          else More(rest2, e)
  }

  /** The whole token loop over one info line. */
  function ScanInfo(s: string, e: Eval): Eval
    decreases |s|
  {
    match ScanStep(s, e)
    case Stop(e') => e'
    case More(rest, e') => ScanInfo(rest, e')
  }

  /** A turn either leaves the evaluation alone or sets a score. */
  lemma StepKeepsOrScores(s: string, e: Eval)
    ensures ScanStep(s, e).eval == e || ScanStep(s, e).eval.hasScore
  {
  }

  /** A scan either leaves the evaluation alone or ends with a score. */
  lemma {:induction false} ScanKeepsOrScores(s: string, e: Eval)
    ensures ScanInfo(s, e) == e || ScanInfo(s, e).hasScore
    decreases |s|
  {
    StepKeepsOrScores(s, e);
    match ScanStep(s, e)
    case Stop(_) =>
    case More(rest, e') =>
      ScanKeepsOrScores(rest, e');
      if e' != e {
        ScoreStays(rest, e');
      }
  }

  /** Once there is a score, there is a score at the end. */
  lemma {:induction false} ScoreStays(s: string, e: Eval)
    requires e.hasScore
    ensures ScanInfo(s, e).hasScore
    decreases |s|
  {
    StepKeepsOrScores(s, e);
    match ScanStep(s, e)
    case Stop(_) =>
    case More(rest, e') =>
      ScoreStays(rest, e');
  }

  /** What the GUI is told when the engine has gone away. */
  function StoppedMessage(name: string): string {
    "info string Error: Engine " + name + " has stopped responding."
  }

  /** `ss >> token >> best_move`: the second word, "" when there is none. */
  function SecondWord(line: string): string {
    match NextToken(line)
    case None => ""
    case Some((_, rest)) =>
      match NextToken(rest)
      case None => ""
      case Some((w, _)) => w
  }

  /** How a search ends: the move returned, the evaluation left behind, the
      GUI log, and the output lines not yet read. */
  datatype SearchEnd = SearchEnd(best: string, eval: Eval, gui: seq<string>, rest: seq<OutputLine>)

  /** What one line does to a search: end it with a move, or let it go on
      with a new evaluation and GUI log. */
  datatype Step = Done(best: string, eval: Eval, gui: seq<string>) | Continue(eval: Eval, gui: seq<string>)

  function StepLine(line: OutputLine, primary: bool, name: string, e: Eval, gui: seq<string>): Step {
    var l := line.text;
    if l == [] then
      if !line.running then Done("resign", e, gui + [StoppedMessage(name)]) else Continue(e, gui)
    else if StartsWith(l, "info") then
      if StartsWith(l, "info string") then Continue(e, gui)
      else Continue(ScanInfo(l, e), if primary then gui + [l] else gui)
    else if StartsWith(l, "bestmove") then Done(SecondWord(l), e, gui)
    else Continue(e, gui)
  }

  /** The read loop of go over the remaining output; running out of output is
      a process that has ended. */
  function Search(lines: seq<OutputLine>, primary: bool, name: string, e: Eval, gui: seq<string>): SearchEnd
    decreases |lines|
  {
    if lines == [] then SearchEnd("resign", e, gui + [StoppedMessage(name)], [])
    else
      match StepLine(lines[0], primary, name, e, gui)
      case Done(best, e', gui') => SearchEnd(best, e', gui', lines[1..])
      case Continue(e', gui') => Search(lines[1..], primary, name, e', gui')
  }

  /** A line the read loop passes over without ending the search or touching
      the GUI log or the evaluation. */
  predicate Ignored(l: OutputLine) {
    (l.text == [] && l.running)
    || (l.text != [] && !StartsWith(l.text, "info") && !StartsWith(l.text, "bestmove"))
    || StartsWith(l.text, "info string")
  }

  lemma IgnoredContinues(l: OutputLine, primary: bool, name: string, e: Eval, gui: seq<string>)
    requires Ignored(l)
    ensures StepLine(l, primary, name, e, gui) == Continue(e, gui)
  {
  }

  /** The search answers with the second word of the first "bestmove" line
      when everything before it is passed over. */
  lemma {:induction false} FirstBestmove(lines: seq<OutputLine>, j: nat, primary: bool, name: string,
                                         e: Eval, gui: seq<string>)
    requires j < |lines| && StartsWith(lines[j].text, "bestmove")
    requires forall i :: 0 <= i < j ==> Ignored(lines[i])
    ensures Search(lines, primary, name, e, gui) ==
      SearchEnd(SecondWord(lines[j].text), e, gui, lines[j + 1..])
    decreases j
  {
    if j > 0 {
      IgnoredContinues(lines[0], primary, name, e, gui);
      assert forall i :: 0 <= i < j - 1 ==> lines[1..][i] == lines[i + 1];
      FirstBestmove(lines[1..], j - 1, primary, name, e, gui);
      assert lines[1..][j..] == lines[j + 1..];
    } else {
      BestmoveLineEnds(lines[0], primary, name, e, gui);
    }
  }

  lemma BestmoveLineEnds(l: OutputLine, primary: bool, name: string, e: Eval, gui: seq<string>)
    requires StartsWith(l.text, "bestmove")
    ensures StepLine(l, primary, name, e, gui) == Done(SecondWord(l.text), e, gui)
  {
    assert l.text[0] == 'b';
    assert !StartsWith(l.text, "info");
  }

  /** An empty read from a process that has stopped makes the search resign. */
  lemma {:induction false} CrashResigns(lines: seq<OutputLine>, j: nat, primary: bool, name: string,
                                        e: Eval, gui: seq<string>)
    requires j <= |lines|
    requires j < |lines| ==> lines[j] == OutputLine("", false)
    requires forall i :: 0 <= i < j ==> Ignored(lines[i])
    ensures Search(lines, primary, name, e, gui).best == "resign"
    ensures Search(lines, primary, name, e, gui).gui == gui + [StoppedMessage(name)]
    decreases j
  {
    if j > 0 {
      IgnoredContinues(lines[0], primary, name, e, gui);
      assert forall i :: 0 <= i < j - 1 ==> lines[1..][i] == lines[i + 1];
      CrashResigns(lines[1..], j - 1, primary, name, e, gui);
    }
  }

  /** The move a search returns is "resign" or the second word of one of the
      lines it read, a line that starts with "bestmove". */
  lemma {:induction false} SearchAnswer(lines: seq<OutputLine>, primary: bool, name: string,
                                        e: Eval, gui: seq<string>)
    ensures var r := Search(lines, primary, name, e, gui);
      r.best == "resign"
      || exists i :: 0 <= i < |lines| && StartsWith(lines[i].text, "bestmove")
                     && r.best == SecondWord(lines[i].text)
    decreases |lines|
  {
    if lines != [] {
      match StepLine(lines[0], primary, name, e, gui)
      case Done(best, e', gui') =>
        StepAnswer(lines[0], primary, name, e, gui);
      case Continue(e', gui') =>
        SearchAnswer(lines[1..], primary, name, e', gui');
        var r := Search(lines[1..], primary, name, e', gui');
        if r.best != "resign" {
          var i :| 0 <= i < |lines[1..]| && StartsWith(lines[1..][i].text, "bestmove")
                   && r.best == SecondWord(lines[1..][i].text);
          assert lines[1..][i] == lines[i + 1];
        }
    }
  }

  lemma StepAnswer(l: OutputLine, primary: bool, name: string, e: Eval, gui: seq<string>)
    requires StepLine(l, primary, name, e, gui).Done?
    ensures StepLine(l, primary, name, e, gui).best == "resign"
      || (StartsWith(l.text, "bestmove") && StepLine(l, primary, name, e, gui).best == SecondWord(l.text))
  {
  }

  /** What reaches the GUI: the earlier log is kept, and only info lines other
      than "info string", only for the primary game, and the stopped-engine
      message are added. */
  lemma {:induction false} SearchForwards(lines: seq<OutputLine>, primary: bool, name: string,
                                          e: Eval, gui: seq<string>)
    ensures var r := Search(lines, primary, name, e, gui);
      Forwarded(gui, r.gui, primary, name)
    decreases |lines|
  {
    if lines == [] {
      StoppedForwarded(gui, primary, name);
    } else {
      StepForwards(lines[0], primary, name, e, gui);
      match StepLine(lines[0], primary, name, e, gui)
      case Done(_, _, _) =>
      case Continue(e', gui') =>
        SearchForwards(lines[1..], primary, name, e', gui');
        ForwardedTrans(gui, gui', Search(lines[1..], primary, name, e', gui').gui, primary, name);
    }
  }

  /** after extends before by lines the search may pass on. */
  ghost predicate Forwarded(before: seq<string>, after: seq<string>, primary: bool, name: string) {
    |before| <= |after| && after[..|before|] == before
    && forall i :: |before| <= i < |after| ==>
         after[i] == StoppedMessage(name)
         || (primary && StartsWith(after[i], "info") && !StartsWith(after[i], "info string"))
  }

  lemma StoppedForwarded(gui: seq<string>, primary: bool, name: string)
    ensures Forwarded(gui, gui + [StoppedMessage(name)], primary, name)
  {
    assert (gui + [StoppedMessage(name)])[..|gui|] == gui;
  }

  lemma StepForwards(l: OutputLine, primary: bool, name: string, e: Eval, gui: seq<string>)
    ensures Forwarded(gui, StepLine(l, primary, name, e, gui).gui, primary, name)
  {
    assert (gui + [l.text])[..|gui|] == gui;
    StoppedForwarded(gui, primary, name);
  }

  lemma ForwardedTrans(a: seq<string>, b: seq<string>, c: seq<string>, primary: bool, name: string)
    requires Forwarded(a, b, primary, name) && Forwarded(b, c, primary, name)
    ensures Forwarded(a, c, primary, name)
  {
    assert c[..|b|][..|a|] == c[..|a|];
  }

  // Score parsing, one step at a time.

  /** A turn that goes on hands the rest of the line to the next turn. */
  lemma ScanMore(s: string, e: Eval)
    requires ScanStep(s, e).More?
    ensures ScanInfo(s, e) == ScanInfo(ScanStep(s, e).rest, ScanStep(s, e).eval)
  {
  }

  /** A word other than "score" is passed over. */
  lemma ScanSkipsWord(w: string, rest: string, e: Eval)
    requires |w| >= 1 && NoSpace(w) && w != "score"
    ensures ScanInfo(w + " " + rest, e) == ScanInfo(" " + rest, e)
  {
    NextTokenOf(w, " " + rest);
    assert w + " " + rest == w + (" " + rest);
    StepOfWord(w + " " + rest, w, " " + rest, e);
    ScanMore(w + " " + rest, e);
  }

  lemma StepOfWord(s: string, w: string, rest: string, e: Eval)
    requires NextToken(s) == Some((w, rest)) && w != "score"
    ensures ScanStep(s, e) == More(rest, e)
  {
  }

  /** "score cp N" sets the evaluation to N, and the scan goes on after N. */
  lemma ScanCp(n: int, rest: string, e: Eval)
    requires IntMin <= n <= IntMax
    requires rest == [] || IsSpace(rest[0])
    ensures ScanInfo("score cp " + IntToString(n) + rest, e) == ScanInfo(rest, Eval(n, true))
  {
    ScanScore("cp", n, rest, e);
    ScoreLiterals(n);
  }

  /** "score mate M" sets the evaluation to plus or minus MateScore by the
      sign of M. */
  lemma ScanMate(m: int, rest: string, e: Eval)
    requires IntMin <= m <= IntMax
    requires rest == [] || IsSpace(rest[0])
    ensures ScanInfo("score mate " + IntToString(m) + rest, e) ==
      ScanInfo(rest, Eval(if m >= 0 then MateScore else -MateScore, true))
  {
    ScanScore("mate", m, rest, e);
    ScoreLiterals(m);
  }

  /** The score value a score type and a number give. */
  function ScoreOf(kind: string, n: int): Eval {
    if kind == "cp" then Eval(n, true) else Eval(if n >= 0 then MateScore else -MateScore, true)
  }

  lemma ScoreLiterals(n: int)
    ensures "score cp " == "score " + "cp" + " " && ScoreOf("cp", n) == Eval(n, true)
    ensures "score mate " == "score " + "mate" + " "
    ensures ScoreOf("mate", n) == Eval(if n >= 0 then MateScore else -MateScore, true)
  {
  }

  lemma ScanScore(kind: string, n: int, rest: string, e: Eval)
    requires kind == "cp" || kind == "mate"
    requires IntMin <= n <= IntMax
    requires rest == [] || IsSpace(rest[0])
    ensures ScanInfo("score " + kind + " " + IntToString(n) + rest, e) == ScanInfo(rest, ScoreOf(kind, n))
  {
    var num := IntToString(n) + rest;
    ScoreWords(kind);
    TwoTokens("score", kind, " " + num);
    ScoreSentence(kind, IntToString(n), rest);
    NumberAfterSpace(n, rest);
    ScanOfScore("score " + kind + " " + IntToString(n) + rest, "score" + " " + kind + (" " + num),
                " " + kind + (" " + num), kind, " " + num, n, rest, e);
  }

  lemma ScoreSentence(kind: string, num: string, rest: string)
    ensures "score " + kind + " " + num + rest == "score" + " " + kind + (" " + (num + rest))
  {
  }

  lemma NumberAfterSpace(n: int, rest: string)
    requires IntMin <= n <= IntMax
    requires rest == [] || IsSpace(rest[0])
    ensures ReadInt(" " + (IntToString(n) + rest)) == Some((n, rest))
  {
    assert rest == [] || !IsDigit(rest[0]);
    IntToStringReadBack(n, rest);
    ReadIntAfterSpace(IntToString(n) + rest);
  }

  lemma ScanOfScore(s: string, s': string, r1: string, kind: string, r2: string, n: int, r3: string, e: Eval)
    requires s == s'
    requires kind == "cp" || kind == "mate"
    requires NextToken(s') == Some(("score", r1))
    requires NextToken(r1) == Some((kind, r2))
    requires ReadInt(r2) == Some((n, r3))
    ensures ScanInfo(s, e) == ScanInfo(r3, ScoreOf(kind, n))
  {
    StepOfScore(s', r1, kind, r2, n, r3, e);
    ScanMore(s', e);
  }

  lemma ScoreWords(kind: string)
    requires kind == "cp" || kind == "mate"
    ensures |kind| >= 1 && NoSpace(kind) && |"score"| >= 1 && NoSpace("score")
  {
  }

  /** Two words in a row are read as two tokens. */
  lemma TwoTokens(w1: string, w2: string, tail: string)
    requires |w1| >= 1 && NoSpace(w1) && |w2| >= 1 && NoSpace(w2)
    requires tail == [] || IsSpace(tail[0])
    ensures NextToken(w1 + " " + w2 + tail) == Some((w1, " " + w2 + tail))
    ensures NextToken(" " + w2 + tail) == Some((w2, tail))
  {
    NextTokenOf(w1, " " + w2 + tail);
    assert w1 + " " + w2 + tail == w1 + (" " + w2 + tail);
    NextTokenSkips(" " + w2 + tail);
    assert (" " + w2 + tail)[1..] == w2 + tail;
    NextTokenOf(w2, tail);
  }

  lemma ReadIntAfterSpace(s: string)
    ensures ReadInt(" " + s) == ReadInt(s)
  {
    ReadIntSkips(" " + s);
    assert (" " + s)[1..] == s;
  }

  lemma StepOfScore(s: string, r1: string, kind: string, r2: string, n: int, r3: string, e: Eval)
    requires kind == "cp" || kind == "mate"
    requires NextToken(s) == Some(("score", r1))
    requires NextToken(r1) == Some((kind, r2))
    requires ReadInt(r2) == Some((n, r3))
    ensures ScanStep(s, e) == More(r3, ScoreOf(kind, n))
  {
  }

  lemma NextTokenOf(w: string, rest: string)
    requires |w| >= 1 && NoSpace(w)
    requires rest == [] || IsSpace(rest[0])
    ensures NextToken(w + rest) == Some((w, rest))
  {
    SkipSpaceNoop(w + rest);
    WordPrefixOfWord(w, rest);
    assert (w + rest)[|w|..] == rest;
  }

  lemma NextTokenSkips(s: string)
    requires s != [] && IsSpace(s[0])
    ensures NextToken(s) == NextToken(s[1..])
  {
  }

  lemma ReadIntSkips(s: string)
    requires s != [] && IsSpace(s[0])
    ensures ReadInt(s) == ReadInt(s[1..])
  {
    assert SkipSpace(s) == SkipSpace(s[1..]);
  }

  /** With no "score" word left, the evaluation stays as it is. */
  lemma {:induction false} ScanWithoutScore(s: string, e: Eval)
    requires forall i :: 0 <= i < |Words(s)| ==> Words(s)[i] != "score"
    ensures ScanInfo(s, e) == e
    decreases |s|
  {
    if NextToken(s).Some? {
      var rest := NextToken(s).value.1;
      WordsUnfold(s);
      assert NextToken(s).value.0 == Words(s)[0];
      StepOfWord(s, NextToken(s).value.0, rest, e);
      assert forall i :: 0 <= i < |Words(rest)| ==> Words(rest)[i] == Words(s)[i + 1];
      ScanWithoutScore(rest, e);
      ScanMore(s, e);
    }
  }

  // ---------------------------------------------------------------------------
  // The engine object

  class Engine {
    var name: string
    /** Lines written to the engine's standard input. */
    var toEngine: seq<string>
    /** Lines written to the GUI on standard output. */
    var toGui: seq<string>
    /** What the engine process will still print. */
    var output: seq<OutputLine>
    var lastEvalCp: int
    var lastEvalHasScore: bool

    constructor(engineName: string, lines: seq<OutputLine>)
      ensures name == engineName && output == lines
      ensures toEngine == [] && toGui == []
      ensures lastEvalCp == 0 && !lastEvalHasScore
    {
      name := engineName;
      output := lines;
      toEngine := [];
      toGui := [];
      lastEvalCp := 0;
      lastEvalHasScore := false;
    }

    /** Writes "quit". */
    method Stop()
      modifies this
      ensures toEngine == old(toEngine) + ["quit"]
      ensures name == old(name) && toGui == old(toGui) && output == old(output)
      ensures lastEvalCp == old(lastEvalCp) && lastEvalHasScore == old(lastEvalHasScore)
    {
      toEngine := toEngine + ["quit"];
    }

    /** Walks the option string block by block and writes one setoption
        command per block that names an option. */
    method ApplyUciOptions(options: string)
      modifies this
      ensures toEngine == old(toEngine) + OptionCommands(options)
      ensures name == old(name) && toGui == old(toGui) && output == old(output)
      ensures lastEvalCp == old(lastEvalCp) && lastEvalHasScore == old(lastEvalHasScore)
    {
      if options == [] {
        return;
      }
      var sent := toEngine;
      var current := Find(options, NameKeyword, 0);
      if current.Some? {
        BlocksFrom(options, 0);
        assert OptionCommands(options) == Commands(Blocks(options, current.value));
      }
      while current.Some?
        invariant current.Some? ==>
          Find(options, NameKeyword, current.value) == current
          && toEngine + OptionCommands(options) == sent + Commands(Blocks(options, current.value))
        invariant current.None? ==> toEngine + OptionCommands(options) == sent
        invariant unchanged(this)
        decreases if current.None? then 0 else |options| + 1 - current.value
      {
        var p := current.value;
        var next := Find(options, NameKeyword, p + 5);
        var block := if next.None? then options[p..] else options[p..next.value];
        OptionStep(options, p, sent, toEngine + OptionCommands(options));
        ghost var before := sent;
        var cmd := BlockCommand(block);
        if cmd.Some? {
          sent := sent + [cmd.value];
        }
        assert sent == before + BlockCommands(block);
        if next.None? {
          break;
        }
        current := Find(options, NameKeyword, next.value);
      }
      toEngine := sent;
    }

    /** Writes "position fen F", with " moves m1 m2 ..." when there are moves. */
    method SetPosition(fen: string, moves: seq<string>)
      modifies this
      ensures toEngine == old(toEngine) + [PositionCommand(fen, moves)]
      ensures name == old(name) && toGui == old(toGui) && output == old(output)
      ensures lastEvalCp == old(lastEvalCp) && lastEvalHasScore == old(lastEvalHasScore)
    {
      var cmd := "position fen " + fen;
      if moves != [] {
        cmd := cmd + " moves";
        for i := 0 to |moves|
          invariant cmd == "position fen " + fen + " moves" + MovesText(moves[..i])
        {
          assert moves[..i + 1][..i] == moves[..i];
          cmd := cmd + " " + moves[i];
        }
        assert moves[..|moves|] == moves;
        assert cmd == "position fen " + fen + (" moves" + MovesText(moves));
      } else {
        assert cmd + "" == cmd;
      }
      toEngine := toEngine + [cmd];
    }

    /** Sends the go command and reads the engine's output up to its answer;
        the evaluation starts afresh for every search. */
    method Go(goCommand: string, isPrimary: bool) returns (best: string)
      modifies this
      ensures var r := Search(old(output), isPrimary, old(name), Eval(0, false), old(toGui));
        best == r.best && lastEvalCp == r.eval.cp && lastEvalHasScore == r.eval.hasScore
        && toGui == r.gui && output == r.rest
      ensures toEngine == old(toEngine) + [goCommand] && name == old(name)
    {
      lastEvalHasScore := false;
      lastEvalCp := 0;
      toEngine := toEngine + [goCommand];
      while true
        invariant Search(old(output), isPrimary, old(name), Eval(0, false), old(toGui)) ==
          Search(output, isPrimary, name, Eval(lastEvalCp, lastEvalHasScore), toGui)
        invariant toEngine == old(toEngine) + [goCommand] && name == old(name)
        decreases |output|
      {
        if output == [] {
          toGui := toGui + [StoppedMessage(name)];
          return "resign";
        }
        var line := output[0].text;
        var running := output[0].running;
        output := output[1..];
        if line == [] {
          if !running {
            toGui := toGui + [StoppedMessage(name)];
            return "resign";
          }
          continue;
        }
        if StartsWith(line, "info") {
          if !StartsWith(line, "info string") {
            ParseScore(line);
            if isPrimary {
              toGui := toGui + [line];
            }
          }
          continue;
        }
        if StartsWith(line, "bestmove") {
          return SecondWord(line);
        }
      }
    }

    /** The token loop over one info line. */
    method ParseScore(line: string)
      modifies this
      ensures Eval(lastEvalCp, lastEvalHasScore) == ScanInfo(line, old(Eval(lastEvalCp, lastEvalHasScore)))
      ensures name == old(name) && toGui == old(toGui) && output == old(output)
      ensures toEngine == old(toEngine)
    {
      var rest := line;
      while true
        invariant ScanInfo(line, old(Eval(lastEvalCp, lastEvalHasScore))) ==
          ScanInfo(rest, Eval(lastEvalCp, lastEvalHasScore))
        invariant name == old(name) && toGui == old(toGui) && output == old(output)
        invariant toEngine == old(toEngine)
        decreases |rest|
      {
        var tok := NextToken(rest);
        if tok.None? {
          return;
        }
        rest := tok.value.1;
        if tok.value.0 == "score" {
          var kind := NextToken(rest);
          if kind.None? {
            return;
          }
          rest := kind.value.1;
          if kind.value.0 == "cp" {
            var n := ReadInt(rest);
            if n.None? {
              return;
            }
            rest := n.value.1;
            lastEvalCp := n.value.0;
            lastEvalHasScore := true;
          } else if kind.value.0 == "mate" {
            var m := ReadInt(rest);
            if m.None? {
              return;
            }
            rest := m.value.1;
            lastEvalCp := if m.value.0 >= 0 then MateScore else -MateScore;
            lastEvalHasScore := true;
          }
        }
      }
    }
  }
}

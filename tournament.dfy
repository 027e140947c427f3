// The match controller around the games: the option settings the GUI sends,
// the queue of games with colours swapped in pairs, the tally of results, and
// the small text helpers used when reporting.

module Tournament {
  import opened Text
  import opened Types
  import TM = TimeManager

  // ---------------------------------------------------------------------------
  // Settings

  /** The tournament configuration held in main's globals. */
  datatype Settings = Settings(
    engine1Path: string, engine2Path: string,
    engine1Options: string, engine2Options: string,
    bookFilePath: string,
    saveNotation: bool, saveNotationDir: string,
    rounds: int, concurrency: int,
    tc: TM.TimeControl, timeoutBufferMs: int,
    logging: bool)

  /** The initial values of the globals (logging starts enabled). */
  const Defaults: Settings := Settings("", "", "", "", "", false, "notations", 10, 2,
                                       TM.TimeControl(1000, 1000, 100, 100), 5000, true)

  /** The rest of a line up to its first newline, as getline reads it. */
  function UpToNewline(s: string): (r: string)
    ensures '\n' !in r
    ensures |r| <= |s| && r == s[..|r|]
    ensures '\n' !in s ==> r == s
  {
    if s == [] || s[0] == '\n' then [] else [s[0]] + UpToNewline(s[1..])
  }

  /** One leading blank removed, if there is one. */
  function DropBlank(s: string): string {
    if s != [] && s[0] == ' ' then s[1..] else s
  }

  /** handle_setoption's reading of a line: four words, then the rest of the
      line with one leading blank dropped.  None unless the second word is
      "name" and the fourth is "value" (a missing word reads as empty); else
      the option's name (the third word) and its value. */
  function SetOptionFields(line: string): (r: Option<(string, string)>)
  {
    match NextToken(line)
    case None => None
    case Some((_, r1)) =>
      match NextToken(r1)
      case None => None
      case Some((nameWord, r2)) =>
        match NextToken(r2)
        case None => None
        case Some((option, r3)) =>
          match NextToken(r3)
          case None => None
          case Some((valueWord, r4)) =>
            if nameWord != "name" || valueWord != "value" then None
            else Some((option, DropBlank(UpToNewline(r4))))
  }

  /** The option names handle_setoption recognises. */
  datatype OptionName =
    | Engine1Path | Engine2Path | Engine1Options | Engine2Options | BookFile
    | SaveNotation | SaveNotationDir | TotalRounds | Concurrency | MainTimeMs
    | IncTimeMs | TimeoutBufferMs | Logging | Unknown

  function OptionOf(name: string): (o: OptionName)
    ensures o == Engine1Path <==> name == "Engine1Path"
    ensures o == Engine2Path <==> name == "Engine2Path"
    ensures o == MainTimeMs <==> name == "MainTimeMs"
    ensures o == IncTimeMs <==> name == "IncTimeMs"
  {
    if name == "Engine1Path" then Engine1Path
    else if name == "Engine2Path" then Engine2Path
    else if name == "Engine1Options" then Engine1Options
    else if name == "Engine2Options" then Engine2Options
    else if name == "BookFile" then BookFile
    else if name == "SaveNotation" then SaveNotation
    else if name == "SaveNotationDir" then SaveNotationDir
    else if name == "TotalRounds" then TotalRounds
    else if name == "Concurrency" then Concurrency
    else if name == "MainTimeMs" then MainTimeMs
    else if name == "IncTimeMs" then IncTimeMs
    else if name == "TimeoutBufferMs" then TimeoutBufferMs
    else if name == "Logging" then Logging
    else Unknown
  }

  /** The options whose value goes through std::stoi. */
  predicate IsNumeric(o: OptionName) {
    o.TotalRounds? || o.Concurrency? || o.MainTimeMs? || o.IncTimeMs? || o.TimeoutBufferMs?
  }

  /** The values std::stoi accepts; on any other it throws and ends the
      program. */
  predicate NumberOk(name: string, value: string) {
    IsNumeric(OptionOf(name)) ==> Stoi(value).Some?
  }

  predicate SetOptionOk(line: string) {
    match SetOptionFields(line)
    case None => true
    case Some((name, value)) => NumberOk(name, value)
  }

  /** The effect of one option on the settings; an unknown name has none. */
  function ApplyOption(s: Settings, name: string, value: string): (r: Settings)
    requires NumberOk(name, value)
  {
    match OptionOf(name)
    case Engine1Path => s.(engine1Path := value)
    case Engine2Path => s.(engine2Path := value)
    case Engine1Options => s.(engine1Options := value)
    case Engine2Options => s.(engine2Options := value)
    case BookFile => s.(bookFilePath := value)
    case SaveNotation => s.(saveNotation := value == "true")
    case SaveNotationDir => s.(saveNotationDir := value)
    case TotalRounds => s.(rounds := Stoi(value).value)
    case Concurrency => s.(concurrency := Stoi(value).value)
    case MainTimeMs =>
      var v := Stoi(value).value;
      s.(tc := s.tc.(wtimeMs := v, btimeMs := v))
    case IncTimeMs =>
      var v := Stoi(value).value;
      s.(tc := s.tc.(wincMs := v, bincMs := v))
    case TimeoutBufferMs => s.(timeoutBufferMs := Stoi(value).value)
    case Logging => s.(logging := value == "true")
    case Unknown => s
  }

  /** handle_setoption on the settings. */
  function ApplySetOption(s: Settings, line: string): Settings
    requires SetOptionOk(line)
  {
    match SetOptionFields(line)
    case None => s
    case Some((name, value)) => ApplyOption(s, name, value)
  }

  lemma NextTokenBlank(b: string)
    ensures NextToken(" " + b) == NextToken(b)
  {
    assert SkipSpace(" " + b) == SkipSpace(b) by {
      assert (" " + b)[1..] == b;
    }
  }

  lemma NextTokenOfWord(w: string, b: string)
    requires |w| >= 1 && NoSpace(w)
    ensures NextToken(w + " " + b) == Some((w, " " + b))
  {
    WordPrefixOfWord(w, []);
    assert w + [] == w;
    SkipSpaceNoop(w);
    assert NextToken(w) == Some((w, []));
    NextTokenSep(w, b);
    assert [] + " " + b == " " + b;
  }

  /** The line a GUI sends to set an option. */
  function OptionLine(name: string, value: string): string {
    "setoption" + " " + ("name" + " " + (name + " " + ("value" + " " + value)))
  }

  /** A line written "setoption name N value V" reads back as N and V,
      for a one-word name and a value without a newline. */
  lemma {:induction false} SetOptionLineReads(name: string, value: string)
    requires |name| >= 1 && NoSpace(name) && '\n' !in value
    ensures SetOptionFields(OptionLine(name, value)) == Some((name, value))
  {
    var a3 := "value" + " " + value;
    var a2 := name + " " + a3;
    var a1 := "name" + " " + a2;
    OptionLineTokens(name, value);
    assert (" " + value)[1..] == value;
  }

  /** The four words of an option line, read one at a time. */
  lemma OptionLineTokens(name: string, value: string)
    requires |name| >= 1 && NoSpace(name)
    ensures var a3 := "value" + " " + value;
      var a2 := name + " " + a3;
      var a1 := "name" + " " + a2;
      && NextToken(OptionLine(name, value)) == Some(("setoption", " " + a1))
      && NextToken(" " + a1) == Some(("name", " " + a2))
      && NextToken(" " + a2) == Some((name, " " + a3))
      && NextToken(" " + a3) == Some(("value", " " + value))
  {
    var a3 := "value" + " " + value;
    var a2 := name + " " + a3;
    var a1 := "name" + " " + a2;
    assert NoSpace("setoption") && NoSpace("name") && NoSpace("value");
    NextTokenOfWord("setoption", a1);
    NextTokenBlank(a1);
    NextTokenOfWord("name", a2);
    NextTokenBlank(a2);
    NextTokenOfWord(name, a3);
    NextTokenBlank(a3);
    NextTokenOfWord("value", value);
  }

  /** The words of a line split off one at a time. */
  lemma WordsStep(s: string)
    ensures NextToken(s).None? ==> Words(s) == []
    ensures NextToken(s).Some? ==> Words(s) == [NextToken(s).value.0] + Words(NextToken(s).value.1)
  {
  }

  /** A line is taken as an option exactly when it has at least four words,
      the second "name" and the fourth "value"; the option is the third word. */
  lemma {:induction false} SetOptionWords(line: string)
    ensures SetOptionFields(line).Some? <==>
      (var ws := Words(line); |ws| >= 4 && ws[1] == "name" && ws[3] == "value")
    ensures SetOptionFields(line).Some? ==> SetOptionFields(line).value.0 == Words(line)[2]
  {
    WordsStep(line);
    if NextToken(line).Some? {
      var r1 := NextToken(line).value.1;
      WordsStep(r1);
      if NextToken(r1).Some? {
        var r2 := NextToken(r1).value.1;
        WordsStep(r2);
        if NextToken(r2).Some? {
          var r3 := NextToken(r2).value.1;
          WordsStep(r3);
        }
      }
    }
  }

  /** A line that is not of the form "setoption name N value V" changes no
      setting, and neither does one whose option name is not recognised. */
  lemma OtherLinesIgnored(s: Settings, line: string, name: string, value: string)
    requires SetOptionFields(line).None? && OptionOf(name) == Unknown
    ensures ApplySetOption(s, line) == s && ApplyOption(s, name, value) == s
  {
  }

  /** Setting the same option line twice is the same as setting it once. */
  lemma SetOptionIdempotent(s: Settings, line: string)
    requires SetOptionOk(line)
    ensures ApplySetOption(ApplySetOption(s, line), line) == ApplySetOption(s, line)
  {
    match SetOptionFields(line)
    case None =>
    case Some((name, value)) => ApplyOptionIdempotent(s, name, value);
  }

  lemma ApplyOptionIdempotent(s: Settings, name: string, value: string)
    requires NumberOk(name, value)
    ensures ApplyOption(ApplyOption(s, name, value), name, value) == ApplyOption(s, name, value)
  {
    var r := ApplyOption(s, name, value);
    match OptionOf(name)
    case MainTimeMs => assert r.tc == s.tc.(wtimeMs := Stoi(value).value, btimeMs := Stoi(value).value);
    case IncTimeMs => assert r.tc == s.tc.(wincMs := Stoi(value).value, bincMs := Stoi(value).value);
    case _ =>
  }

  /** MainTimeMs gives both sides the same clock, and IncTimeMs the same
      increment. */
  lemma TimeOptionsSymmetric(s: Settings, name: string, value: string)
    requires name == "MainTimeMs" || name == "IncTimeMs"
    requires Stoi(value).Some?
    ensures var t := ApplyOption(s, name, value).tc;
      name == "MainTimeMs" ==> TM.TimeOf(t, Red) == TM.TimeOf(t, Black) == Stoi(value).value
    ensures var t := ApplyOption(s, name, value).tc;
      name == "IncTimeMs" ==> t.wincMs == t.bincMs == Stoi(value).value
  {
  }

  /** The isready rule: "readyok" iff both engine paths are set. */
  predicate Ready(s: Settings) {
    s.engine1Path != [] && s.engine2Path != []
  }

  const NotReadyText: string := "info string Error: Engine paths are not set."

  /** After both engine paths are sent as options, isready answers
      "readyok", whatever came before. */
  lemma ReadyAfterPaths(s: Settings, path1: string, path2: string)
    requires |path1| >= 1 && |path2| >= 1 && '\n' !in path1 && '\n' !in path2
    ensures SetOptionOk(OptionLine("Engine1Path", path1)) && SetOptionOk(OptionLine("Engine2Path", path2))
    ensures var r := ApplySetOption(ApplySetOption(s, OptionLine("Engine1Path", path1)), OptionLine("Engine2Path", path2));
      Ready(r) && r.engine1Path == path1 && r.engine2Path == path2
  {
    assert NoSpace("Engine1Path") && NoSpace("Engine2Path");
    assert OptionOf("Engine1Path") == Engine1Path && OptionOf("Engine2Path") == Engine2Path;
    OptionLineApplies(s, "Engine1Path", path1);
    var s1 := ApplyOption(s, "Engine1Path", path1);
    OptionLineApplies(s1, "Engine2Path", path2);
  }

  /** An option line has the effect of its option. */
  lemma OptionLineApplies(s: Settings, name: string, value: string)
    requires |name| >= 1 && NoSpace(name) && '\n' !in value && NumberOk(name, value)
    ensures SetOptionOk(OptionLine(name, value))
    ensures ApplySetOption(s, OptionLine(name, value)) == ApplyOption(s, name, value)
  {
    SetOptionLineReads(name, value);
  }

  // ---------------------------------------------------------------------------
  // The game queue

  /** One game to be played. */
  datatype GameTask = GameTask(gameId: int, redPath: string, blackPath: string,
                               redOptions: string, blackOptions: string, startFen: string)

  /** The start position used when there is no opening book. */
  const DefaultFen: string :=
    "xxxxkxxxx/9/1x5x1/x1x1x1x1x/9/9/X1X1X1X1X/1X5X1/9/XXXXKXXXX w R2r2N2n2B2b2A2a2C2c2P5p5 0 1"

  /** The opening of round i: the book read cyclically, or the default. */
  function OpeningFor(book: seq<string>, i: nat): string {
    if book == [] then DefaultFen else book[i % |book|]
  }

  /** The task at queue position k: engine1 is Red in the first game of
      each round and Black in the second, both on the round's opening. */
  function TaskAt(s: Settings, book: seq<string>, k: nat): GameTask {
    var fen := OpeningFor(book, k / 2);
    if k % 2 == 0 then
      GameTask(k + 1, s.engine1Path, s.engine2Path, s.engine1Options, s.engine2Options, fen)
    else
      GameTask(k + 1, s.engine2Path, s.engine1Path, s.engine2Options, s.engine1Options, fen)
  }

  /** The queue after `rounds` rounds have been added. */
  function Queue(s: Settings, book: seq<string>, rounds: int): (q: seq<GameTask>)
    ensures |q| == if rounds <= 0 then 0 else 2 * rounds
    ensures forall k :: 0 <= k < |q| ==> q[k] == TaskAt(s, book, k)
    decreases rounds
  {
    if rounds <= 0 then []
    else
      var i := rounds - 1;
      var fen := OpeningFor(book, i);
      Queue(s, book, rounds - 1)
        + [GameTask(i * 2 + 1, s.engine1Path, s.engine2Path, s.engine1Options, s.engine2Options, fen),
           GameTask(i * 2 + 2, s.engine2Path, s.engine1Path, s.engine2Options, s.engine1Options, fen)]
  }

  /** Engine1 holds Red in a task when the task's Red engine has engine1's
      path and options. */
  predicate E1WasRed(s: Settings, task: GameTask) {
    task.redPath == s.engine1Path && task.redOptions == s.engine1Options
  }

  /** The games of a round swap colours on one opening, and with two
      distinguishable engines engine1 is Red exactly in the first game of
      each round. */
  lemma QueuePairs(s: Settings, book: seq<string>, rounds: int, k: nat)
    requires k < |Queue(s, book, rounds)|
    ensures var q := Queue(s, book, rounds);
      q[k].gameId == k + 1 &&
      (k % 2 == 0 ==>
        (k + 1 < |q| && q[k].redPath == q[k + 1].blackPath &&
         q[k].blackPath == q[k + 1].redPath && q[k].redOptions == q[k + 1].blackOptions &&
         q[k].blackOptions == q[k + 1].redOptions && q[k].startFen == q[k + 1].startFen))
    ensures (s.engine1Path, s.engine1Options) != (s.engine2Path, s.engine2Options) ==>
      (E1WasRed(s, Queue(s, book, rounds)[k]) <==> k % 2 == 0)
  {
    var q := Queue(s, book, rounds);
    if k % 2 == 0 {
      assert (k + 1) / 2 == k / 2;
    }
  }

  /** The start positions are the book's lines in order, round by round,
      starting over when the book runs out. */
  lemma QueueOpenings(s: Settings, book: seq<string>, rounds: int, k: nat)
    requires k < |Queue(s, book, rounds)| && book != []
    ensures Queue(s, book, rounds)[k].startFen == book[(k / 2) % |book|]
    ensures Queue(s, book, rounds)[k].startFen in book
  {
  }

  // ---------------------------------------------------------------------------
  // The tally

  /** The match counters, with scores in half points. */
  datatype Tally = Tally(score1Halves: int, score2Halves: int, draws: int,
                         wins1: int, losses1: int, completed: int)

  const Zero: Tally := Tally(0, 0, 0, 0, 0, 0)

  /** The bookkeeping after one game. */
  function Record(t: Tally, e1WasRed: bool, result: Color): (r: Tally)
    ensures r.completed == t.completed + 1
  {
    var t' :=
      if result == Red then
        if e1WasRed then t.(score1Halves := t.score1Halves + 2, wins1 := t.wins1 + 1)
        else t.(score2Halves := t.score2Halves + 2, losses1 := t.losses1 + 1)
      else if result == Black then
        if e1WasRed then t.(score2Halves := t.score2Halves + 2, losses1 := t.losses1 + 1)
        else t.(score1Halves := t.score1Halves + 2, wins1 := t.wins1 + 1)
      else
        t.(score1Halves := t.score1Halves + 1, score2Halves := t.score2Halves + 1, draws := t.draws + 1);
    t'.(completed := t'.completed + 1)
  }

  /** Every game is a win, a loss or a draw for engine1, the two scores
      share one point per game, and engine1's score is its wins plus half
      its draws. */
  predicate Consistent(t: Tally) {
    && t.wins1 >= 0 && t.losses1 >= 0 && t.draws >= 0
    && t.wins1 + t.losses1 + t.draws == t.completed
    && t.score1Halves + t.score2Halves == 2 * t.completed
    && t.score1Halves == 2 * t.wins1 + t.draws
  }

  lemma RecordConsistent(t: Tally, e1WasRed: bool, result: Color)
    requires Consistent(t)
    ensures Consistent(Record(t, e1WasRed, result))
    ensures Record(t, e1WasRed, result).score2Halves == 2 * Record(t, e1WasRed, result).losses1 + Record(t, e1WasRed, result).draws
  {
  }

  /** The counters do not depend on the order in which games finish, so
      the workers' concurrent updates come to the same totals as one worker
      playing the queue in order. */
  lemma RecordCommutes(t: Tally, e1a: bool, ra: Color, e1b: bool, rb: Color)
    ensures Record(Record(t, e1a, ra), e1b, rb) == Record(Record(t, e1b, rb), e1a, ra)
  {
  }

  /** The result of the next game; games past the end of the list are
      aborted, which counts as NONE. */
  function NextResult(results: seq<Color>): Color {
    if results == [] then NoColor else results[0]
  }

  function LaterResults(results: seq<Color>): seq<Color> {
    if results == [] then [] else results[1..]
  }

  /** The worker's loop: each task of the queue in order, with its result. */
  function Fold(s: Settings, t: Tally, tasks: seq<GameTask>, results: seq<Color>): Tally
    decreases |tasks|
  {
    if tasks == [] then t
    else Fold(s, Record(t, E1WasRed(s, tasks[0]), NextResult(results)), tasks[1..], LaterResults(results))
  }

  lemma {:induction false} FoldConsistent(s: Settings, t: Tally, tasks: seq<GameTask>, results: seq<Color>)
    requires Consistent(t)
    ensures Consistent(Fold(s, t, tasks, results))
    ensures Fold(s, t, tasks, results).completed == t.completed + |tasks|
    decreases |tasks|
  {
    if tasks != [] {
      RecordConsistent(t, E1WasRed(s, tasks[0]), NextResult(results));
      FoldConsistent(s, Record(t, E1WasRed(s, tasks[0]), NextResult(results)), tasks[1..], LaterResults(results));
    }
  }

  function DropResults(results: seq<Color>, n: nat): seq<Color> {
    if n >= |results| then [] else results[n..]
  }

  lemma {:induction false} FoldAppend(s: Settings, t: Tally, a: seq<GameTask>, b: seq<GameTask>, results: seq<Color>)
    ensures Fold(s, t, a + b, results) == Fold(s, Fold(s, t, a, results), b, DropResults(results, |a|))
    decreases |a|
  {
    if a == [] {
      assert a + b == b;
      assert DropResults(results, 0) == results;
    } else {
      assert (a + b)[1..] == a[1..] + b;
      FoldAppend(s, Record(t, E1WasRed(s, a[0]), NextResult(results)), a[1..], b, LaterResults(results));
      assert DropResults(LaterResults(results), |a| - 1) == DropResults(results, |a|);
    }
  }

  /** The tally after two games in a row. */
  lemma FoldTwo(s: Settings, t: Tally, a: GameTask, b: GameTask, results: seq<Color>)
    ensures Fold(s, t, [a, b], results) ==
      Record(Record(t, E1WasRed(s, a), NextResult(results)), E1WasRed(s, b), NextResult(LaterResults(results)))
  {
    assert [a, b][1..] == [b];
    assert [b][1..] == [];
    var t1 := Record(t, E1WasRed(s, a), NextResult(results));
    assert Fold(s, t, [a, b], results) == Fold(s, t1, [b], LaterResults(results));
    var t2 := Record(t1, E1WasRed(s, b), NextResult(LaterResults(results)));
    assert Fold(s, t1, [b], LaterResults(results)) == Fold(s, t2, [], LaterResults(LaterResults(results)));
  }

  /** Two games with the same outcome for the colours, engine1 Red in the
      first and Black in the second, leave the score difference as it was. */
  lemma PairStep(s: Settings, t: Tally, a: GameTask, b: GameTask, rest: seq<Color>, c: Color)
    requires E1WasRed(s, a) && !E1WasRed(s, b)
    requires NextResult(rest) == c && NextResult(LaterResults(rest)) == c
    ensures var r := Fold(s, t, [a, b], rest);
      r.score1Halves - r.score2Halves == t.score1Halves - t.score2Halves
  {
    FoldTwo(s, t, a, b, rest);
  }

  /** When every game of the match has the same outcome for the colours
      (say Red always wins), the colour swap leaves the two engines level:
      their scores are equal. */
  lemma {:induction false} ColourSwapBalances(s: Settings, book: seq<string>, rounds: int, results: seq<Color>, c: Color)
    requires (s.engine1Path, s.engine1Options) != (s.engine2Path, s.engine2Options)
    requires |results| >= |Queue(s, book, rounds)|
    requires forall k :: 0 <= k < |results| ==> results[k] == c
    ensures var t := Fold(s, Zero, Queue(s, book, rounds), results);
      t.score1Halves == t.score2Halves
    decreases rounds
  {
    if rounds > 0 {
      var q := Queue(s, book, rounds - 1);
      var a, b := TaskAt(s, book, |q|), TaskAt(s, book, |q| + 1);
      QueueLast(s, book, rounds);
      ColourSwapBalances(s, book, rounds - 1, results, c);
      FoldAppend(s, Zero, q, [a, b], results);
      var rest := DropResults(results, |q|);
      SameResults(results, |q|, c);
      TaskSides(s, book, |q|);
      PairStep(s, Fold(s, Zero, q, results), a, b, rest, c);
    }
  }

  /** The last round's two games close the queue. */
  lemma QueueLast(s: Settings, book: seq<string>, rounds: int)
    requires rounds > 0
    ensures var q := Queue(s, book, rounds - 1);
      |q| == 2 * rounds - 2 &&
      Queue(s, book, rounds) == q + [TaskAt(s, book, |q|), TaskAt(s, book, |q| + 1)]
  {
    var k := 2 * rounds - 2;
    assert k / 2 == rounds - 1 && (k + 1) / 2 == rounds - 1;
  }

  /** engine1 is Red in a round's first game and, when the engines are
      distinguishable, not in its second. */
  lemma TaskSides(s: Settings, book: seq<string>, k: nat)
    requires k % 2 == 0
    ensures E1WasRed(s, TaskAt(s, book, k))
    ensures (s.engine1Path, s.engine1Options) != (s.engine2Path, s.engine2Options) ==>
      !E1WasRed(s, TaskAt(s, book, k + 1))
  {
    assert (k + 1) % 2 == 1;
  }

  lemma SameResults(results: seq<Color>, n: nat, c: Color)
    requires n + 2 <= |results|
    requires forall k :: 0 <= k < |results| ==> results[k] == c
    ensures NextResult(DropResults(results, n)) == c
    ensures NextResult(LaterResults(DropResults(results, n))) == c
  {
    assert DropResults(results, n)[0] == results[n];
    assert LaterResults(DropResults(results, n))[0] == results[n + 1];
  }

  /** A whole match: every queued game is counted once and the counters
      agree with each other. */
  lemma MatchTotals(s: Settings, book: seq<string>, results: seq<Color>)
    ensures var t := Fold(s, Zero, Queue(s, book, s.rounds), results);
      Consistent(t) && t.completed == (if s.rounds <= 0 then 0 else 2 * s.rounds)
  {
    FoldConsistent(s, Zero, Queue(s, book, s.rounds), results);
  }

  // ---------------------------------------------------------------------------
  // Reporting helpers

  /** result_to_string. */
  function ResultText(result: Color): (r: string)
    ensures r == "1-0" <==> result == Red
    ensures r == "0-1" <==> result == Black
    ensures r == "1/2-1/2" <==> result == NoColor
  {
    match result
    case Red => "1-0"
    case Black => "0-1"
    case NoColor => "1/2-1/2"
  }

  predicate IsSeparator(c: char) { c == '/' || c == '\\' }

  /** std::string::find_last_of("/\\") with npos as None. */
  function LastSeparator(path: string): (r: Option<nat>)
    ensures r.Some? ==> r.value < |path| && IsSeparator(path[r.value])
    ensures r.Some? ==> forall j :: r.value < j < |path| ==> !IsSeparator(path[j])
    ensures r.None? ==> forall j :: 0 <= j < |path| ==> !IsSeparator(path[j])
    decreases |path|
  {
    if path == [] then None
    else if IsSeparator(path[|path| - 1]) then Some(|path| - 1)
    else LastSeparator(path[..|path| - 1])
  }

  /** basename_from_path: the text after the last '/' or '\', or the whole
      path when it has neither. */
  function Basename(path: string): (r: string)
    ensures |r| <= |path| && r == path[|path| - |r|..]
    ensures forall j :: 0 <= j < |r| ==> !IsSeparator(r[j])
    ensures r == path || IsSeparator(path[|path| - |r| - 1])
  {
    match LastSeparator(path)
    case None => path
    case Some(pos) =>
      var r := path[pos + 1..];
      assert forall j :: 0 <= j < |r| ==> r[j] == path[pos + 1 + j];
      r
  }

  /** A path made of a directory and a file name without separators has
      that file name as its base name. */
  lemma BasenameOfJoin(dir: string, name: string)
    requires forall j :: 0 <= j < |name| ==> !IsSeparator(name[j])
    ensures Basename(dir + "/" + name) == name
  {
    var p := dir + "/" + name;
    var r := Basename(p);
    assert IsSeparator(p[|dir|]);
    assert p[|p| - |name|..] == name;
  }

  const HexDigits: string := "0123456789abcdef"

  /** json_escape of one character: the two-character escapes, \u00XX for
      the other control characters, the character itself otherwise. */
  function EscapeChar(c: char): (r: string) {
    if c == '\\' then "\\\\"
    else if c == '"' then "\\\""
    else if c == '\n' then "\\n"
    else if c == '\r' then "\\r"
    else if c == '\t' then "\\t"
    else if (c as int) < 0x20 then EscapeControl(c)
    else [c]
  }

  /** \u and four hexadecimal digits of the character's code, taken four
      bits at a time from the top. */
  function EscapeControl(c: char): (r: string)
    ensures |r| == 6
  {
    var n := c as int;
    "\\u" + [HexDigits[(n / 4096) % 16], HexDigits[(n / 256) % 16], HexDigits[(n / 16) % 16], HexDigits[n % 16]]
  }

  /** json_escape of a whole string. */
  function Escaped(s: string): string
    decreases |s|
  {
    if s == [] then [] else EscapeChar(s[0]) + Escaped(s[1..])
  }

  predicate NoControl(t: string) {
    forall i :: 0 <= i < |t| ==> (t[i] as int) >= 0x20
  }

  lemma EscapeCharNoControl(c: char)
    ensures NoControl(EscapeChar(c))
  {
    if !(c == '\\' || c == '"' || c == '\n' || c == '\r' || c == '\t') && (c as int) < 0x20 {
      var n := c as int;
      var e := EscapeControl(c);
      assert forall k :: 0 <= k < 16 ==> (HexDigits[k] as int) >= 0x30;
      assert forall i :: 2 <= i < 6 ==> (e[i] as int) >= 0x30;
    }
  }

  /** No raw control character survives the escaping. */
  lemma {:induction false} EscapedNoControl(s: string)
    ensures NoControl(Escaped(s))
    decreases |s|
  {
    if s != [] {
      EscapeCharNoControl(s[0]);
      EscapedNoControl(s[1..]);
      var a, b := EscapeChar(s[0]), Escaped(s[1..]);
      assert forall i :: 0 <= i < |a + b| ==> (a + b)[i] == (if i < |a| then a[i] else b[i - |a|]);
    }
  }

  /** The value of a hexadecimal digit as written by json_escape. */
  function HexValue(d: char): Option<nat> {
    if '0' <= d <= '9' then Some(d as int - '0' as int)
    else if 'a' <= d <= 'f' then Some(d as int - 'a' as int + 10)
    else None
  }

  /** The value of four hexadecimal digits. */
  function HexQuad(q: string): Option<nat>
    requires |q| == 4
  {
    var h1, h2, h3, h4 := HexValue(q[0]), HexValue(q[1]), HexValue(q[2]), HexValue(q[3]);
    if h1.None? || h2.None? || h3.None? || h4.None? then None
    else Some(((h1.value * 16 + h2.value) * 16 + h3.value) * 16 + h4.value)
  }

  /** The character a two-character escape stands for. */
  function SimpleEscape(e: char): Option<char> {
    if e == '\\' then Some('\\') else if e == '"' then Some('"') else if e == 'n' then Some('\n')
    else if e == 'r' then Some('\r') else if e == 't' then Some('\t') else None
  }

  function Prepend(c: char, rest: Option<string>): Option<string> {
    match rest
    case None => None
    case Some(r) => Some([c] + r)
  }

  /** Decoding of JSON string content, the reference for what the escaping
      must preserve: the escapes json_escape writes, any other character
      standing for itself. */
  function Unescaped(t: string): Option<string>
    decreases |t|
  {
    if t == [] then Some([])
    else if t[0] != '\\' then Prepend(t[0], Unescaped(t[1..]))
    else if |t| < 2 then None
    else if SimpleEscape(t[1]).Some? then Prepend(SimpleEscape(t[1]).value, Unescaped(t[2..]))
    else if t[1] != 'u' || |t| < 6 then None
    else
      match HexQuad(t[2..6])
      case None => None
      case Some(v) => if v >= 0xD800 then None else Prepend(v as char, Unescaped(t[6..]))
  }

  lemma HexDigitsRead(n: nat)
    requires n < 16
    ensures HexValue(HexDigits[n]) == Some(n)
  {
  }

  lemma UnescapePlain(c: char, rest: string)
    requires c != '\\'
    ensures Unescaped([c] + rest) == Prepend(c, Unescaped(rest))
  {
    assert ([c] + rest)[1..] == rest;
  }

  lemma UnescapeSimple(c: char, e: char, rest: string)
    requires SimpleEscape(e) == Some(c)
    ensures Unescaped(['\\', e] + rest) == Prepend(c, Unescaped(rest))
  {
    assert (['\\', e] + rest)[2..] == rest;
  }

  lemma SmallCode(n: int)
    requires 0 <= n < 0x20
    ensures (n / 4096) % 16 == 0 && (n / 256) % 16 == 0 && (n / 16) % 16 == n / 16
    ensures ((0 * 16 + 0) * 16 + n / 16) * 16 + n % 16 == n
  {
  }

  lemma UnescapeControl(c: char, rest: string)
    requires (c as int) < 0x20
    ensures Unescaped(EscapeControl(c) + rest) == Prepend(c, Unescaped(rest))
  {
    var n := c as int;
    var t := EscapeControl(c) + rest;
    SmallCode(n);
    HexDigitsRead(0);
    HexDigitsRead(n / 16);
    HexDigitsRead(n % 16);
    var q := t[2..6];
    assert q == [HexDigits[0], HexDigits[0], HexDigits[n / 16], HexDigits[n % 16]];
    assert HexQuad(q) == Some(((0 * 16 + 0) * 16 + n / 16) * 16 + n % 16);
    assert t[6..] == rest;
  }

  lemma {:induction false} UnescapeChar(c: char, rest: string)
    ensures Unescaped(EscapeChar(c) + rest) == Prepend(c, Unescaped(rest))
  {
    if c == '\\' {
      UnescapeSimple(c, '\\', rest);
    } else if c == '"' {
      UnescapeSimple(c, '"', rest);
    } else if c == '\n' {
      UnescapeSimple(c, 'n', rest);
    } else if c == '\r' {
      UnescapeSimple(c, 'r', rest);
    } else if c == '\t' {
      UnescapeSimple(c, 't', rest);
    } else if (c as int) < 0x20 {
      UnescapeControl(c, rest);
    } else {
      UnescapePlain(c, rest);
    }
  }

  /** Decoding the escaped text gives the original string back. */
  lemma {:induction false} EscapeRoundTrip(s: string)
    ensures Unescaped(Escaped(s)) == Some(s)
    decreases |s|
  {
    if s != [] {
      EscapeRoundTrip(s[1..]);
      UnescapeChar(s[0], Escaped(s[1..]));
      assert [s[0]] + s[1..] == s;
    }
  }

  /** json_escape, as the loop that appends each character's escape. */
  method JsonEscape(s: string) returns (out: string)
    ensures out == Escaped(s)
    ensures NoControl(out) && Unescaped(out) == Some(s)
  {
    out := [];
    for i := 0 to |s|
      invariant out + Escaped(s[i..]) == Escaped(s)
    {
      assert s[i..][1..] == s[i + 1..];
      out := out + EscapeChar(s[i]);
    }
    assert s[|s|..] == [];
    EscapedNoControl(s);
    EscapeRoundTrip(s);
  }

  // ---------------------------------------------------------------------------
  // main's globals

  /** main's globals: the configuration, the game queue and the match
      counters. */
  class Arena {
    var settings: Settings
    var queue: seq<GameTask>
    var tally: Tally

    /** The globals at program start. */
    constructor()
      ensures settings == Defaults && tally == Zero && queue == []
    {
      settings := Defaults;
      queue := [];
      tally := Zero;
    }

    /** handle_setoption. */
    method HandleSetOption(line: string)
      requires SetOptionOk(line)
      modifies this
      ensures settings == ApplySetOption(old(settings), line)
      ensures tally == old(tally) && queue == old(queue)
    {
      var fields := SetOptionFields(line);
      if fields.None? {
        return;
      }
      var name, value := fields.value.0, fields.value.1;
      match OptionOf(name)
      case Engine1Path => settings := settings.(engine1Path := value);
      case Engine2Path => settings := settings.(engine2Path := value);
      case Engine1Options => settings := settings.(engine1Options := value);
      case Engine2Options => settings := settings.(engine2Options := value);
      case BookFile => settings := settings.(bookFilePath := value);
      case SaveNotation => settings := settings.(saveNotation := value == "true");
      case SaveNotationDir => settings := settings.(saveNotationDir := value);
      case TotalRounds => settings := settings.(rounds := Stoi(value).value);
      case Concurrency => settings := settings.(concurrency := Stoi(value).value);
      case MainTimeMs =>
        var v := Stoi(value).value;
        settings := settings.(tc := settings.tc.(btimeMs := v));
        settings := settings.(tc := settings.tc.(wtimeMs := v));
      case IncTimeMs =>
        var v := Stoi(value).value;
        settings := settings.(tc := settings.tc.(bincMs := v));
        settings := settings.(tc := settings.tc.(wincMs := v));
      case TimeoutBufferMs => settings := settings.(timeoutBufferMs := Stoi(value).value);
      case Logging => settings := settings.(logging := value == "true");
      case Unknown =>
    }

    /** The answer to isready. */
    method IsReady() returns (answer: string)
      ensures answer == "readyok" <==> Ready(settings)
      ensures answer != "readyok" ==> answer == NotReadyText
    {
      if settings.engine1Path == [] || settings.engine2Path == [] {
        answer := NotReadyText;
      } else {
        answer := "readyok";
      }
    }

    /** The queue-filling loop of run_tournament, over the book as loaded
        and shuffled. */
    method PopulateQueue(book: seq<string>)
      modifies this
      ensures queue == Queue(settings, book, settings.rounds)
      ensures settings == old(settings) && tally == old(tally)
    {
      queue := [];
      var cfg := settings;
      var i := 0;
      while i < cfg.rounds
        invariant 0 <= i <= (if cfg.rounds > 0 then cfg.rounds else 0)
        invariant settings == cfg && tally == old(tally)
        invariant queue == Queue(cfg, book, i)
        decreases cfg.rounds - i
      {
        var fen := if book == [] then DefaultFen else book[i % |book|];
        queue := queue + [GameTask(i * 2 + 1, cfg.engine1Path, cfg.engine2Path, cfg.engine1Options, cfg.engine2Options, fen),
                          GameTask(i * 2 + 2, cfg.engine2Path, cfg.engine1Path, cfg.engine2Options, cfg.engine1Options, fen)];
        i := i + 1;
      }
    }

    /** worker's bookkeeping after one game. */
    method RecordGame(task: GameTask, result: Color)
      modifies this
      ensures tally == Record(old(tally), E1WasRed(settings, task), result)
      ensures settings == old(settings) && queue == old(queue)
    {
      var e1WasRed := task.redPath == settings.engine1Path && task.redOptions == settings.engine1Options;
      var t := tally;
      if result == Red {
        if e1WasRed {
          t := t.(score1Halves := t.score1Halves + 2, wins1 := t.wins1 + 1);
        } else {
          t := t.(score2Halves := t.score2Halves + 2, losses1 := t.losses1 + 1);
        }
      } else if result == Black {
        if e1WasRed {
          t := t.(score2Halves := t.score2Halves + 2, losses1 := t.losses1 + 1);
        } else {
          t := t.(score1Halves := t.score1Halves + 2, wins1 := t.wins1 + 1);
        }
      } else {
        t := t.(score1Halves := t.score1Halves + 1, score2Halves := t.score2Halves + 1, draws := t.draws + 1);
      }
      tally := t.(completed := t.completed + 1);
    }

    /** worker: take games off the front of the queue until it is empty,
        each with its result from the list. */
    method Work(results: seq<Color>)
      modifies this
      ensures queue == [] && settings == old(settings)
      ensures tally == Fold(settings, old(tally), old(queue), results)
    {
      var rest := results;
      while queue != []
        invariant settings == old(settings)
        invariant Fold(settings, old(tally), old(queue), results) == Fold(settings, tally, queue, rest)
        decreases |queue|
      {
        var task := queue[0];
        queue := queue[1..];
        var result := if rest == [] then NoColor else rest[0];
        rest := LaterResults(rest);
        RecordGame(task, result);
      }
    }

    /** run_tournament without its threads: the counters reset, the queue
        filled, and the games tallied in queue order. */
    method RunTournament(book: seq<string>, results: seq<Color>)
      modifies this
      ensures settings == old(settings) && queue == []
      ensures tally == Fold(settings, Zero, Queue(settings, book, settings.rounds), results)
      ensures Consistent(tally) && tally.completed == (if settings.rounds <= 0 then 0 else 2 * settings.rounds)
    {
      tally := Zero;
      PopulateQueue(book);
      Work(results);
      MatchTotals(settings, book, results);
    }
  }
}

// The chess clock of one game: both sides' remaining time and increments,
// charged after every move, and the "go" command that hands them to an engine.

module TimeManager {
  import opened Text
  import opened Types

  /** DEFAULT_TIMEOUT_BUFFER_MS: how far below zero a clock may run before the
      side loses on time. */
  const DefaultTimeoutBufferMs: int := 5000

  const Two32: int := 0x1_0000_0000

  predicate IsInt32(x: int) { IntMin <= x <= IntMax }

  /** Conversion of a wider integer to a 32-bit int: the value modulo 2^32,
      read as two's complement. */
  function Wrap32(x: int): (r: int)
    ensures IsInt32(r)
    ensures (r - x) % Two32 == 0
    ensures IsInt32(x) ==> r == x
  {
    var m := x % Two32;
    if m > IntMax then m - Two32 else m
  }

  /** TimeControl: remaining time and increment per side, in milliseconds;
      "w" is Red, "b" is Black. */
  datatype TimeControl = TimeControl(wtimeMs: int, btimeMs: int, wincMs: int, bincMs: int)

  predicate ValidControl(tc: TimeControl) {
    IsInt32(tc.wtimeMs) && IsInt32(tc.btimeMs) && IsInt32(tc.wincMs) && IsInt32(tc.bincMs)
  }

  /** The clock of a side as get_time_ms reads it: Red's for Red, Black's for
      any other colour. */
  function TimeOf(tc: TimeControl, player: Color): int {
    if player == Red then tc.wtimeMs else tc.btimeMs
  }

  /** update: the mover's clock loses the elapsed time (stored back into a
      32-bit int) and gains the increment. */
  function Charged(tc: TimeControl, mover: Color, elapsedMs: int): (r: TimeControl)
    ensures ValidControl(tc) ==> ValidControl(r)
    ensures r.wincMs == tc.wincMs && r.bincMs == tc.bincMs
    ensures mover == Red ==> r.btimeMs == tc.btimeMs
    ensures mover != Red ==> r.wtimeMs == tc.wtimeMs
  {
    if mover == Red then tc.(wtimeMs := Wrap32(Wrap32(tc.wtimeMs - elapsedMs) + tc.wincMs))
    else tc.(btimeMs := Wrap32(Wrap32(tc.btimeMs - elapsedMs) + tc.bincMs))
  }

  /** Without overflow the mover's clock is charged exactly: time minus the
      elapsed time plus the increment. */
  lemma ChargedExact(tc: TimeControl, mover: Color, elapsedMs: int)
    requires IsInt32(TimeOf(tc, mover) - elapsedMs)
    requires IsInt32(TimeOf(tc, mover) - elapsedMs + (if mover == Red then tc.wincMs else tc.bincMs))
    ensures TimeOf(Charged(tc, mover, elapsedMs), mover) ==
      TimeOf(tc, mover) - elapsedMs + (if mover == Red then tc.wincMs else tc.bincMs)
    ensures TimeOf(Charged(tc, mover, elapsedMs), Opponent(mover)) == TimeOf(tc, Opponent(mover))
  {
  }

  function Opponent(c: Color): Color { if c == Red then Black else Red }

  /** is_out_of_time: the clock has fallen to minus the buffer or below. */
  predicate OutOfTime(tc: TimeControl, player: Color, bufferMs: int) {
    TimeOf(tc, player) <= -bufferMs
  }

  /** A move that took no longer than the mover's time left plus the buffer
      plus the increment never loses on time. */
  lemma InTimeMove(tc: TimeControl, mover: Color, elapsedMs: int, bufferMs: int)
    requires ValidControl(tc)
    requires var inc := if mover == Red then tc.wincMs else tc.bincMs;
      IsInt32(TimeOf(tc, mover) - elapsedMs) && IsInt32(TimeOf(tc, mover) - elapsedMs + inc) &&
      elapsedMs < TimeOf(tc, mover) + bufferMs + inc
    ensures !OutOfTime(Charged(tc, mover, elapsedMs), mover, bufferMs)
  {
    ChargedExact(tc, mover, elapsedMs);
  }

  /** get_go_command. */
  function GoCommand(tc: TimeControl): string {
    JoinWords(["go", "wtime", IntToString(tc.wtimeMs), "btime", IntToString(tc.btimeMs),
               "winc", IntToString(tc.wincMs), "binc", IntToString(tc.bincMs)])
  }

  /** The go command splits into its nine words, and each number reads back
      as the clock value it was written from. */
  lemma GoCommandParses(tc: TimeControl)
    requires ValidControl(tc)
    ensures var ws := Words(GoCommand(tc));
      && ws == ["go", "wtime", IntToString(tc.wtimeMs), "btime", IntToString(tc.btimeMs),
                "winc", IntToString(tc.wincMs), "binc", IntToString(tc.bincMs)]
      && ReadInt(ws[2]) == Some((tc.wtimeMs, ""))
      && ReadInt(ws[4]) == Some((tc.btimeMs, ""))
      && ReadInt(ws[6]) == Some((tc.wincMs, ""))
      && ReadInt(ws[8]) == Some((tc.bincMs, ""))
  {
    var ws := ["go", "wtime", IntToString(tc.wtimeMs), "btime", IntToString(tc.btimeMs),
               "winc", IntToString(tc.wincMs), "binc", IntToString(tc.bincMs)];
    assert NoSpace("go") && NoSpace("wtime") && NoSpace("btime") && NoSpace("winc") && NoSpace("binc");
    WordsOfJoin(ws);
    IntReadsBack(tc.wtimeMs);
    IntReadsBack(tc.btimeMs);
    IntReadsBack(tc.wincMs);
    IntReadsBack(tc.bincMs);
  }

  class TimeManager {
    var tc: TimeControl
    var timeoutBufferMs: int

    constructor(initial: TimeControl, bufferMs: int)
      ensures tc == initial && timeoutBufferMs == bufferMs
    {
      tc := initial;
      timeoutBufferMs := bufferMs;
    }

    method Update(mover: Color, elapsedMs: int)
      modifies this
      ensures tc == Charged(old(tc), mover, elapsedMs)
      ensures timeoutBufferMs == old(timeoutBufferMs)
    {
      if mover == Red {
        tc := tc.(wtimeMs := Wrap32(tc.wtimeMs - elapsedMs));
        tc := tc.(wtimeMs := Wrap32(tc.wtimeMs + tc.wincMs));
      } else {
        tc := tc.(btimeMs := Wrap32(tc.btimeMs - elapsedMs));
        tc := tc.(btimeMs := Wrap32(tc.btimeMs + tc.bincMs));
      }
    }

    method IsOutOfTime(player: Color) returns (out: bool)
      ensures out == OutOfTime(tc, player, timeoutBufferMs)
    {
      if player == Red {
        out := tc.wtimeMs <= -timeoutBufferMs;
      } else {
        out := tc.btimeMs <= -timeoutBufferMs;
      }
    }

    method GetTimeMs(player: Color) returns (ms: int)
      ensures ms == TimeOf(tc, player)
    {
      ms := if player == Red then tc.wtimeMs else tc.btimeMs;
    }

    method GetGoCommand() returns (cmd: string)
      ensures cmd == GoCommand(tc)
    {
      // the format string "go wtime {} btime {} winc {} binc {}"
      cmd := JoinWords(["go", "wtime", IntToString(tc.wtimeMs), "btime", IntToString(tc.btimeMs),
                        "winc", IntToString(tc.wincMs), "binc", IntToString(tc.bincMs)]);
    }

    method SetTimeoutBuffer(bufferMs: int)
      modifies this
      ensures timeoutBufferMs == bufferMs && tc == old(tc)
    {
      timeoutBufferMs := bufferMs;
    }
  }
}

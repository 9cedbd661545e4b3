/**
 * The lyric scheduling loop of `Main.play_line` and its helper
 * `sleep_check_pause`.
 *
 * One iteration of the loop is the function `Step` over a `Clock` holding
 * the loop variables (`i`, `counter`, `last_time`, `progress_ms`) and the
 * flag `self.paused`; `Run` iterates it to the end. The class `Player` runs
 * the same loop imperatively and is proved to produce `Run`'s output.
 *
 * Everything the loop learns from outside arrives through an oracle: one
 * `Interrupt` per call of `sleep_check_pause`, telling whether the pause
 * event was seen during that sleep and, if so, which progress the player
 * reports once playback resumed.
 */
module LyricClock {
  import opened Wrappers
  import opened PyStr
  import opened TimeCodec

  /** What happens while one requested sleep is under way. */
  datatype Interrupt =
    | Completed
      /** The event is first seen at poll number `atPoll` (polls are 0.1 s apart); afterwards the player reports `progressMs`. */
    | PausedThenResumed(atPoll: nat, progressMs: int)

  /** `sleep_check_pause` polls the event every 0.1 s. */
  const PollsPerSecond: nat := 10

  /**
   * The wait of `duration` seconds polls the event at polls 0, 1, ... while
   * less than `duration` seconds have passed; a pause counts only if it is
   * seen at one of them.
   */
  predicate PauseReported(duration: int, during: Interrupt) {
    during.PausedThenResumed? && during.atPoll < PollsPerSecond * duration
  }

  /** The interrupt the next sleep meets, and the oracle left after it. */
  function NextInterrupt(pending: seq<Interrupt>): (Interrupt, seq<Interrupt>) {
    if pending == [] then (Completed, []) else (pending[0], pending[1..])
  }

  /** `ts_to_sec(line.split("]")[0])`. */
  function TsOf(line: string): Option<int> {
    TsToSec(Split(line, ']')[0])
  }

  /** `line.split("]")[1]`, the text that is printed; `None` is the IndexError. */
  function TextOf(line: string): Option<string> {
    var parts := Split(line, ']');
    if |parts| >= 2 then Some(parts[1]) else None
  }

  /**
   * A tagged lyric line, `[mm:ss]text` or `[mm:ss.frac]text`, shows the text
   * up to the next `]`, at `mm * 60 + ss`.
   */
  lemma LineOfTag(mm: string, ss: string, fraction: string, text: string)
    requires |mm| > 0 && AllDigits(mm) && |ss| > 0 && AllDigits(ss)
    requires fraction == "" || (|fraction| > 0 && fraction[0] == '.')
    requires ']' !in fraction
    ensures var line := "[" + mm + ":" + ss + fraction + "]" + text;
      TsOf(line) == Some(DigitsValue(mm) * 60 + DigitsValue(ss)) &&
      TextOf(line) == Some(Split(text, ']')[0])
  {
    var tag := "[" + mm + ":" + ss + fraction;
    DigitsFree(mm);
    DigitsFree(ss);
    assert ']' !in tag;
    SplitAfterPiece(tag, ']', text);
    assert "[" + mm + ":" + ss + fraction + "]" + text == tag + [']'] + text;
    TsToSecOfTag(mm, ss, fraction);
  }

  /**
   * What an iteration computes from a line when it reaches it: the time
   * `ts_to_sec(line.split("]")[0])` and the text `line.split("]")[1]`.
   * Both are functions of the line alone, so reading them in advance changes
   * nothing: `Step` looks at them only when the loop reaches the line.
   */
  datatype ParsedLine = ParsedLine(ts: Option<int>, text: Option<string>)

  function Parse(line: string): ParsedLine {
    ParsedLine(TsOf(line), TextOf(line))
  }

  function ParseAll(lines: seq<string>): (script: seq<ParsedLine>)
    ensures |script| == |lines|
  {
    seq(|lines|, j requires 0 <= j < |lines| => Parse(lines[j]))
  }

  predicate WellFormed(line: ParsedLine) {
    line.ts.Some? && line.text.Some?
  }

  predicate AllWellFormed(script: seq<ParsedLine>) {
    forall j :: 0 <= j < |script| ==> WellFormed(script[j])
  }

  function Ts(line: ParsedLine): int
    requires WellFormed(line)
  {
    line.ts.value
  }

  function Text(line: ParsedLine): string
    requires WellFormed(line)
  {
    line.text.value
  }

  /** The variables of `play_line` at the head of its loop, and `self.paused`. */
  datatype Clock = Clock(
    i: nat, counter: nat, lastTime: int, progress: int, paused: bool,
    pending: seq<Interrupt>)

  /**
   * The loop's state once the progress has been read: the loop works in
   * whole seconds `int(ms_to_sec(progress_ms))`, which `ReadProgress` shows
   * to be `progressMs / 1000`.
   */
  function Start(progressMs: int, oracle: seq<Interrupt>): Clock {
    Clock(0, 0, 0, progressMs / 1000, false, oracle)
  }

  /** What one iteration prints and sleeps, and whether it raised. */
  datatype Move = Move(next: Clock, output: seq<string>, sleeps: seq<int>, crashed: bool)

  /**
   * One iteration of the `while i <= len(lines) - 1` loop. Before the first
   * line is shown (`counter == 0`) a line due before the progress is skipped;
   * the first due line is shown after sleeping until its time. After that,
   * every line waits for the gap since the previous one. A pause reported by
   * a sleep restarts the walk at line 0.
   */
  function Step(script: seq<ParsedLine>, c: Clock): Move
    requires c.i < |script| && !c.paused
  {
    var line := script[c.i];
    match line.ts
    case None => Move(c, [], [], true)
    case Some(ts) =>
      if c.counter == 0 then
        if ts >= c.progress then
          var duration := ts - c.progress;
          var (during, rest) := NextInterrupt(c.pending);
          var paused := c.paused || PauseReported(duration, during);
          match line.text
          case None => Move(c.(paused := paused, pending := rest), [], [duration], true)
          case Some(text) =>
            if paused then
              Move(c.(i := 0, counter := 0, paused := false, pending := rest), [text], [duration], false)
            else
              Move(c.(i := c.i + 1, counter := c.counter + 1, lastTime := ts, pending := rest),
                   [text], [duration], false)
        else
          Move(c.(i := c.i + 1), [], [], false)
      else
        var duration := ts - c.lastTime;
        var (during, rest) := NextInterrupt(c.pending);
        if c.paused || PauseReported(duration, during) then
          Move(c.(i := 0, counter := 0, paused := false, pending := rest,
                  progress := during.progressMs / 1000), [], [duration], false)
        else
          match line.text
          case None => Move(c.(pending := rest), [], [duration], true)
          case Some(text) =>
            Move(c.(i := c.i + 1, lastTime := ts, pending := rest), [text], [duration], false)
  }

  /**
   * An iteration prints and sleeps at most once; unless it raised, it either
   * moves to the next line or consumes a reported pause and restarts at line
   * 0, and it never leaves the flag set.
   */
  lemma StepShape(script: seq<ParsedLine>, c: Clock)
    requires c.i < |script| && !c.paused
    ensures var m := Step(script, c);
      |m.output| <= 1 && |m.sleeps| <= 1 && |m.next.pending| <= |c.pending| &&
      (!m.crashed ==> !m.next.paused) &&
      (!m.crashed ==>
        (m.next.i == c.i + 1 && m.next.pending == (if m.sleeps == [] then c.pending else NextInterrupt(c.pending).1)) ||
        (m.next.i == 0 && m.next.counter == 0 && |m.next.pending| < |c.pending| && |m.sleeps| == 1 &&
         PauseReported(m.sleeps[0], c.pending[0]))) &&
      (m.output != [] ==> WellFormed(script[c.i]) && m.output == [Text(script[c.i])])
  {
  }

  /** Everything the loop prints and sleeps from a state on, and how it ends. */
  datatype Outcome = Outcome(
    output: seq<string>, sleeps: seq<int>, crashed: bool, paused: bool, iterations: nat)

  /** `o` with an earlier stretch of output, sleeps and iterations in front. */
  function Prepend(output: seq<string>, sleeps: seq<int>, iterations: nat, o: Outcome): Outcome {
    o.(output := output + o.output, sleeps := sleeps + o.sleeps, iterations := iterations + o.iterations)
  }

  /**
   * The loop run to its end. Because the oracle is a finite sequence of
   * interrupts, it terminates for every such sequence: every iteration either
   * advances `i` or consumes one reported pause. The source loop, where pauses
   * may keep coming, runs for as long as they do.
   */
  function Run(script: seq<ParsedLine>, c: Clock): (o: Outcome)
    requires !c.paused
    ensures !o.crashed ==> !o.paused
    ensures |o.output| <= o.iterations && |o.sleeps| <= o.iterations
    decreases |c.pending|, |script| - c.i
  {
    if c.i >= |script| then Outcome([], [], false, c.paused, 0)
    else
      var m := Step(script, c);
      StepShape(script, c);
      if m.crashed then Outcome(m.output, m.sleeps, true, m.next.paused, 1)
      else Prepend(m.output, m.sleeps, 1, Run(script, m.next))
  }

  /** What is left of a run after one more iteration has been accounted for. */
  lemma RunAfterStep(script: seq<ParsedLine>, c: Clock, output: seq<string>, sleeps: seq<int>, iterations: nat)
    requires c.i < |script| && !c.paused
    ensures var m := Step(script, c);
      Prepend(output, sleeps, iterations, Run(script, c)) ==
        if m.crashed then Outcome(output + m.output, sleeps + m.sleeps, true, m.next.paused, iterations + 1)
        else Prepend(output + m.output, sleeps + m.sleeps, iterations + 1, Run(script, m.next))
  {
    var m := Step(script, c);
    if m.crashed {
      assert Run(script, c) == Outcome(m.output, m.sleeps, true, m.next.paused, 1);
    } else {
      var rest := Run(script, m.next);
      assert Run(script, c) == Prepend(m.output, m.sleeps, 1, rest);
      PrependTwice(output, sleeps, iterations, m.output, m.sleeps, 1, rest);
    }
  }

  lemma PrependTwice(output: seq<string>, sleeps: seq<int>, iterations: nat,
                     output': seq<string>, sleeps': seq<int>, iterations': nat, o: Outcome)
    ensures Prepend(output, sleeps, iterations, Prepend(output', sleeps', iterations', o)) ==
      Prepend(output + output', sleeps + sleeps', iterations + iterations', o)
  {
    assert output + (output' + o.output) == (output + output') + o.output;
    assert sleeps + (sleeps' + o.sleeps) == (sleeps + sleeps') + o.sleeps;
  }

  /** The object holding `self.paused`, with the console output and the sleeps requested so far. */
  class Player {
    var paused: bool
    var output: seq<string>
    var sleeps: seq<int>

    constructor ()
      ensures !paused && output == [] && sleeps == []
    {
      paused, output, sleeps := false, [], [];
    }

    /**
     * `sleep_check_pause`: poll every 0.1 s for `duration` seconds; if the
     * event is seen, wait until it clears, set `self.paused` and return.
     */
    method SleepCheckPause(duration: int, during: Interrupt)
      modifies this
      ensures paused == (old(paused) || PauseReported(duration, during))
      ensures duration <= 0 ==> paused == old(paused)
      ensures output == old(output) && sleeps == old(sleeps) + [duration]
    {
      sleeps := sleeps + [duration];
      var poll: nat := 0;
      while poll < PollsPerSecond * duration
        invariant poll == 0 || poll <= PollsPerSecond * duration
        invariant paused == old(paused) && output == old(output) && sleeps == old(sleeps) + [duration]
        invariant !(during.PausedThenResumed? && during.atPoll < poll)
        decreases PollsPerSecond * duration - poll
      {
        if during.PausedThenResumed? && during.atPoll == poll {
          // the event is set: the wait for it to clear again is not modelled
          paused := true;
          return;
        }
        poll := poll + 1;
      }
    }

    /**
     * One pass through the body of the `play_line` loop, on the loop variables
     * gathered in `c`; `crashed` is whether the pass raised on a malformed line.
     */
    method Iterate(lines: seq<string>, c: Clock) returns (next: Clock, crashed: bool)
      requires c.i < |lines| && !c.paused && !paused
      modifies this
      ensures var m := Step(ParseAll(lines), c);
        next == m.next && crashed == m.crashed && paused == m.next.paused &&
        output == old(output) + m.output && sleeps == old(sleeps) + m.sleeps
    {
      var i, counter, lastTime, progress, pending := c.i, c.counter, c.lastTime, c.progress, c.pending;
      next, crashed := c, false;
      var line := lines[i];
      var parsed := TsOf(line);
      if parsed.None? {
        crashed := true;
        return;
      }
      var ts := parsed.value;
      assert ParseAll(lines)[i] == Parse(line);
      if counter == 0 {
        if ts >= progress {
          var during := if pending == [] then Completed else pending[0];
          pending := if pending == [] then [] else pending[1..];
          SleepCheckPause(ts - progress, during);
          var text := TextOf(line);
          if text.None? {
            next, crashed := c.(paused := paused, pending := pending), true;
            return;
          }
          output := output + [text.value];
          if paused {
            i, counter, paused := 0, 0, false;
          } else {
            lastTime := ts;
            counter := counter + 1;
            i := i + 1;
          }
        } else {
          i := i + 1;
        }
      } else {
        var during := if pending == [] then Completed else pending[0];
        pending := if pending == [] then [] else pending[1..];
        SleepCheckPause(ts - lastTime, during);
        if paused {
          i, counter, paused := 0, 0, false;
          progress := ReadProgress(during.progressMs);
        } else {
          var text := TextOf(line);
          if text.None? {
            next, crashed := c.(pending := pending), true;
            return;
          }
          output := output + [text.value];
          lastTime := ts;
          i := i + 1;
        }
      }
      next := Clock(i, counter, lastTime, progress, false, pending);
    }

    /**
     * One pass through the loop body, accounted against `Run`: what is left
     * of the run from `c`, after what `done` records, is what this pass adds
     * followed by what is left from `next`.
     */
    method Advance(lines: seq<string>, c: Clock, ghost done: Outcome)
      returns (next: Clock, crashed: bool, ghost done': Outcome)
      requires c.i < |lines| && !c.paused && !paused
      requires output == done.output && sleeps == done.sleeps
      modifies this
      ensures output == done'.output && sleeps == done'.sleeps
      ensures !crashed ==>
        !paused && !next.paused &&
        (|next.pending| < |c.pending| || (|next.pending| == |c.pending| && next.i > c.i))
      ensures Prepend(done.output, done.sleeps, done.iterations, Run(ParseAll(lines), c)) ==
        if crashed then done'.(crashed := true, paused := paused)
        else Prepend(done'.output, done'.sleeps, done'.iterations, Run(ParseAll(lines), next))
    {
      ghost var script := ParseAll(lines);
      ghost var m := Step(script, c);
      StepShape(script, c);
      RunAfterStep(script, c, done.output, done.sleeps, done.iterations);
      next, crashed := Iterate(lines, c);
      done' := done.(output := done.output + m.output, sleeps := done.sleeps + m.sleeps,
                     iterations := done.iterations + 1);
    }

    /**
     * `play_line` on the lines of the lyric file, starting from the progress
     * `progressMs` read from the player; `crashed` is whether it raised on a
     * malformed line.
     */
    method PlayLine(lines: seq<string>, progressMs: int, oracle: seq<Interrupt>) returns (crashed: bool)
      requires !paused
      modifies this
      ensures var o := Run(ParseAll(lines), Start(progressMs, oracle));
        crashed == o.crashed && paused == o.paused &&
        output == old(output) + o.output && sleeps == old(sleeps) + o.sleeps
    {
      var c := Clock(0, 0, 0, ReadProgress(progressMs), false, oracle);
      ghost var done := Outcome(output, sleeps, false, false, 0);
      ghost var whole := Prepend(output, sleeps, 0, Run(ParseAll(lines), c));
      crashed := false;
      while c.i <= |lines| - 1
        invariant !c.paused && !paused && !crashed
        invariant output == done.output && sleeps == done.sleeps
        invariant whole == Prepend(done.output, done.sleeps, done.iterations, Run(ParseAll(lines), c))
        decreases |c.pending|, |lines| - c.i
      {
        c, crashed, done := Advance(lines, c, done);
        if crashed {
          return;
        }
      }
    }
  }
}

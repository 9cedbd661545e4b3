/**
 * What `play_line` does, stated about the loop function `Run` of
 * `LyricClock`: with no pause it shows exactly the lines from the first one
 * due at the progress on, each after the gap since the previous one; a pause
 * while showing later lines restarts the walk as a fresh session from the
 * re-read progress; a pause during the very first wait shows that line again.
 */
module LyricClockProperties {
  import opened Wrappers
  import opened PyStr
  import opened LyricClock

  /** No sleep meets a pause. */
  predicate Quiet(pending: seq<Interrupt>) {
    forall j :: 0 <= j < |pending| ==> pending[j].Completed?
  }

  /** The first line from index `from` on whose time is not before `progress`, or `|script|`. */
  function FirstDue(script: seq<ParsedLine>, progress: int, from: nat): (k: nat)
    requires from <= |script| && AllWellFormed(script)
    ensures from <= k <= |script|
    ensures forall j :: from <= j < k ==> Ts(script[j]) < progress
    ensures k < |script| ==> Ts(script[k]) >= progress
    decreases |script| - from
  {
    if from == |script| || Ts(script[from]) >= progress then from
    else FirstDue(script, progress, from + 1)
  }

  /** The texts of the lines from index `k` on, in order. */
  function Texts(script: seq<ParsedLine>, k: nat): (texts: seq<string>)
    requires k <= |script| && AllWellFormed(script)
    ensures |texts| == |script| - k
  {
    seq(|script| - k, j requires 0 <= j < |script| - k => Text(script[k + j]))
  }

  /**
   * The waits before each line from `k` on: the first measured from `base`,
   * every later one from the time of the line before it.
   */
  function Waits(script: seq<ParsedLine>, k: nat, base: int): (waits: seq<int>)
    requires k <= |script| && AllWellFormed(script)
    ensures |waits| == |script| - k
  {
    seq(|script| - k, j requires 0 <= j < |script| - k =>
      Ts(script[k + j]) - (if j == 0 then base else Ts(script[k + j - 1])))
  }

  lemma {:induction false} TextsCons(script: seq<ParsedLine>, k: nat)
    requires k < |script| && AllWellFormed(script)
    ensures Texts(script, k) == [Text(script[k])] + Texts(script, k + 1)
  {
    var left, right := Texts(script, k), [Text(script[k])] + Texts(script, k + 1);
    forall j | 0 <= j < |left| ensures left[j] == right[j] {
      if j > 0 {
        assert right[j] == Texts(script, k + 1)[j - 1];
      }
    }
  }

  lemma {:induction false} WaitsCons(script: seq<ParsedLine>, k: nat, base: int)
    requires k < |script| && AllWellFormed(script)
    ensures Waits(script, k, base) == [Ts(script[k]) - base] + Waits(script, k + 1, Ts(script[k]))
  {
    var left, right := Waits(script, k, base), [Ts(script[k]) - base] + Waits(script, k + 1, Ts(script[k]));
    forall j | 0 <= j < |left| ensures left[j] == right[j] {
      if j > 0 {
        assert right[j] == Waits(script, k + 1, Ts(script[k]))[j - 1];
      }
    }
  }

  lemma {:induction false} QuietRest(pending: seq<Interrupt>)
    requires Quiet(pending)
    ensures NextInterrupt(pending).0 == Completed && Quiet(NextInterrupt(pending).1)
  {
  }

  /**
   * Once the first line has been shown, and with no pause, every later line
   * is shown in order after the gap since the previous one.
   */
  lemma {:induction false} EmitPhase(script: seq<ParsedLine>, c: Clock)
    requires AllWellFormed(script) && c.i <= |script| && c.counter > 0 && !c.paused && Quiet(c.pending)
    ensures var o := Run(script, c);
      !o.crashed && o.output == Texts(script, c.i) && o.sleeps == Waits(script, c.i, c.lastTime) &&
      o.iterations == |script| - c.i
    decreases |script| - c.i
  {
    if c.i < |script| {
      QuietRest(c.pending);
      var m := Step(script, c);
      var ts := Ts(script[c.i]);
      assert !m.crashed && m.output == [Text(script[c.i])] && m.sleeps == [ts - c.lastTime];
      assert m.next == c.(i := c.i + 1, lastTime := ts, pending := NextInterrupt(c.pending).1);
      EmitPhase(script, m.next);
      TextsCons(script, c.i);
      WaitsCons(script, c.i, c.lastTime);
    }
  }

  /** Before the first line is shown, the lines due before the progress are skipped silently. */
  lemma {:induction false} SkipPhase(script: seq<ParsedLine>, c: Clock, k: nat)
    requires AllWellFormed(script) && c.i <= k <= |script| && c.counter == 0 && !c.paused
    requires forall j :: c.i <= j < k ==> Ts(script[j]) < c.progress
    ensures Run(script, c) == Prepend([], [], k - c.i, Run(script, c.(i := k)))
    decreases k - c.i
  {
    if c.i < k {
      var m := Step(script, c);
      assert m == Move(c.(i := c.i + 1), [], [], false);
      SkipPhase(script, m.next, k);
      assert m.next.(i := k) == c.(i := k);
    } else {
      assert c.(i := k) == c;
      var o := Run(script, c);
      assert [] + o.output == o.output && [] + o.sleeps == o.sleeps;
    }
  }

  /**
   * With no pause, the loop shows exactly the texts of the lines from the
   * first one due at the progress on, in order and each once; the first of
   * them after waiting from the progress to its time (never a negative
   * wait), every later one after the gap since the previous line. Nothing is
   * shown when no line is due.
   */
  lemma {:induction false} QuietRun(script: seq<ParsedLine>, c: Clock)
    requires AllWellFormed(script) && c.i <= |script| && c.counter == 0 && !c.paused && Quiet(c.pending)
    ensures var o := Run(script, c); var k := FirstDue(script, c.progress, c.i);
      !o.crashed && !o.paused &&
      o.output == Texts(script, k) && o.sleeps == Waits(script, k, c.progress) &&
      o.iterations == |script| - c.i &&
      (k < |script| ==> o.sleeps[0] == Ts(script[k]) - c.progress >= 0) &&
      (o.output == [] <==> forall j :: c.i <= j < |script| ==> Ts(script[j]) < c.progress)
  {
    var k := FirstDue(script, c.progress, c.i);
    SkipPhase(script, c, k);
    var d := c.(i := k);
    if k < |script| {
      QuietRest(d.pending);
      var m := Step(script, d);
      var ts := Ts(script[k]);
      assert !m.crashed && m.output == [Text(script[k])] && m.sleeps == [ts - c.progress];
      assert m.next == d.(i := k + 1, counter := 1, lastTime := ts, pending := NextInterrupt(d.pending).1);
      EmitPhase(script, m.next);
      TextsCons(script, k);
      WaitsCons(script, k, c.progress);
    }
  }

  /** `play_line` with no pause, from the progress `progressMs` it reads at the start. */
  lemma {:induction false} PlayWithoutPause(lines: seq<string>, progressMs: int, oracle: seq<Interrupt>)
    requires AllWellFormed(ParseAll(lines)) && Quiet(oracle)
    ensures var script := ParseAll(lines); var o := Run(script, Start(progressMs, oracle));
      var k := FirstDue(script, progressMs / 1000, 0);
      !o.crashed && o.output == Texts(script, k) && o.sleeps == Waits(script, k, progressMs / 1000) &&
      o.iterations == |lines|
  {
    QuietRun(ParseAll(lines), Start(progressMs, oracle));
  }

  /** With no pause, a line whose time field does not parse stops the loop with an exception. */
  lemma {:induction false} QuietRunCrashes(script: seq<ParsedLine>, c: Clock, bad: nat)
    requires c.i <= bad < |script| && !c.paused && Quiet(c.pending) && script[bad].ts.None?
    ensures Run(script, c).crashed
    decreases |script| - c.i
  {
    var m := Step(script, c);
    if c.i < bad && !m.crashed {
      QuietRest(c.pending);
      assert m.next.i == c.i + 1 && Quiet(m.next.pending);
      QuietRunCrashes(script, m.next, bad);
    }
  }

  /** Until the first line is shown, `last_time` is never read. */
  lemma {:induction false} RunIgnoresLastTime(script: seq<ParsedLine>, c: Clock, t: int)
    requires c.counter == 0 && !c.paused
    ensures Run(script, c) == Run(script, c.(lastTime := t))
    decreases |c.pending|, |script| - c.i
  {
    if c.i < |script| {
      var m, m2 := Step(script, c), Step(script, c.(lastTime := t));
      assert m2.output == m.output && m2.sleeps == m.sleeps && m2.crashed == m.crashed;
      assert m2.next == m.next || (m.next.counter == 0 && m2.next == m.next.(lastTime := t));
      if !m.crashed && m2.next != m.next {
        RunIgnoresLastTime(script, m.next, t);
      }
    }
  }

  /**
   * A pause reported while waiting for a later line: that line is not shown,
   * and the rest is a fresh `play_line` from the progress re-read on resume.
   */
  lemma {:induction false} PauseWhileEmittingRestarts(script: seq<ParsedLine>, c: Clock)
    requires c.i < |script| && !c.paused && c.counter > 0 && script[c.i].ts.Some?
    requires |c.pending| > 0 && PauseReported(script[c.i].ts.value - c.lastTime, c.pending[0])
    ensures Run(script, c) ==
      Prepend([], [script[c.i].ts.value - c.lastTime], 1,
              Run(script, Start(c.pending[0].progressMs, c.pending[1..])))
  {
    var m := Step(script, c);
    var restart := Start(c.pending[0].progressMs, c.pending[1..]);
    assert !m.crashed && m.output == [] && m.next == restart.(lastTime := c.lastTime);
    RunIgnoresLastTime(script, m.next, 0);
    assert m.next.(lastTime := 0) == restart;
  }

  /**
   * A pause reported while waiting for the first line: the line is shown
   * anyway, and the walk restarts from line 0 at the same, stale progress.
   */
  lemma {:induction false} PauseOnFirstLineRepeats(script: seq<ParsedLine>, c: Clock)
    requires c.i < |script| && !c.paused && c.counter == 0 && WellFormed(script[c.i])
    requires Ts(script[c.i]) >= c.progress
    requires |c.pending| > 0 && PauseReported(Ts(script[c.i]) - c.progress, c.pending[0])
    ensures Run(script, c) ==
      Prepend([Text(script[c.i])], [Ts(script[c.i]) - c.progress], 1,
              Run(script, Clock(0, 0, 0, c.progress, false, c.pending[1..])))
  {
    var m := Step(script, c);
    assert !m.crashed && m.next == Clock(0, 0, c.lastTime, c.progress, false, c.pending[1..]);
    RunIgnoresLastTime(script, m.next, 0);
  }

  /**
   * The consequence for a whole session: when the first wait is paused and
   * nothing else is, the first due line is shown twice.
   */
  lemma {:induction false} FirstLineShownTwice(script: seq<ParsedLine>, progressMs: int, oracle: seq<Interrupt>)
    requires AllWellFormed(script) && |oracle| > 0 && Quiet(oracle[1..])
    requires FirstDue(script, progressMs / 1000, 0) < |script|
    requires PauseReported(Ts(script[FirstDue(script, progressMs / 1000, 0)]) - progressMs / 1000, oracle[0])
    ensures var k := FirstDue(script, progressMs / 1000, 0);
      Run(script, Start(progressMs, oracle)).output == [Text(script[k])] + Texts(script, k)
  {
    var p := progressMs / 1000;
    var k := FirstDue(script, p, 0);
    var s := Start(progressMs, oracle);
    SkipPhase(script, s, k);
    PauseOnFirstLineRepeats(script, s.(i := k));
    QuietRun(script, Clock(0, 0, 0, p, false, oracle[1..]));
  }

  /**
   * Resynchronisation after a pause while later lines are shown: whether the
   * player moved forward (a seek) or back (a rewind), the loop goes on with
   * exactly the lines due at the progress reported on resume.
   */
  lemma {:induction false} ResumeAtReportedProgress(script: seq<ParsedLine>, c: Clock)
    requires AllWellFormed(script) && c.i < |script| && !c.paused && c.counter > 0
    requires |c.pending| > 0 && PauseReported(Ts(script[c.i]) - c.lastTime, c.pending[0])
    requires Quiet(c.pending[1..])
    ensures var p := c.pending[0].progressMs / 1000; var k := FirstDue(script, p, 0);
      var o := Run(script, c);
      !o.crashed && o.output == Texts(script, k) &&
      o.sleeps == [Ts(script[c.i]) - c.lastTime] + Waits(script, k, p)
  {
    var restart := Start(c.pending[0].progressMs, c.pending[1..]);
    var p := c.pending[0].progressMs / 1000;
    var k := FirstDue(script, p, 0);
    var rest := Run(script, restart);
    assert Run(script, c) == Prepend([], [Ts(script[c.i]) - c.lastTime], 1, rest) by {
      PauseWhileEmittingRestarts(script, c);
    }
    assert !rest.crashed && rest.output == Texts(script, k) && rest.sleeps == Waits(script, k, p) by {
      QuietRun(script, restart);
    }
    assert [] + rest.output == rest.output;
  }

  /** A line `[mm:ss]text` or `[mm:ss.frac]text`, with no further `]`, parses to its seconds and its text. */
  lemma TaggedLine(line: string, mm: string, ss: string, fraction: string, text: string)
    requires |mm| > 0 && AllDigits(mm) && |ss| > 0 && AllDigits(ss)
    requires fraction == "" || (|fraction| > 0 && fraction[0] == '.')
    requires ']' !in fraction && ']' !in text
    requires line == "[" + mm + ":" + ss + fraction + "]" + text
    ensures Parse(line) == ParsedLine(Some(DigitsValue(mm) * 60 + DigitsValue(ss)), Some(text))
  {
    LineOfTag(mm, ss, fraction, text);
    SplitWithout(text, ']');
  }

  /**
   * A line whose time parses but which has no `]` before its text, under no
   * pause: once the loop is showing lines (or a line up to it is due), it
   * reaches that line and `line.split("]")[1]` raises.
   */
  lemma {:induction false} MissingTextCrashes(script: seq<ParsedLine>, c: Clock, bad: nat)
    requires c.i <= bad < |script| && !c.paused && Quiet(c.pending)
    requires forall j :: c.i <= j < bad ==> WellFormed(script[j])
    requires script[bad].ts.Some? && script[bad].text.None?
    requires c.counter > 0 || script[bad].ts.value >= c.progress ||
      exists j :: c.i <= j < bad && Ts(script[j]) >= c.progress
    ensures Run(script, c).crashed
    decreases |script| - c.i
  {
    QuietRest(c.pending);
    var m := Step(script, c);
    if c.i < bad {
      var ts := Ts(script[c.i]);
      if c.counter == 0 && ts < c.progress {
        assert m.next == c.(i := c.i + 1);
        if script[bad].ts.value < c.progress {
          var j :| c.i <= j < bad && Ts(script[j]) >= c.progress;
          assert j != c.i;
        }
      } else {
        assert !m.crashed && m.next.i == c.i + 1 && m.next.counter > 0 && Quiet(m.next.pending);
      }
      MissingTextCrashes(script, m.next, bad);
    }
  }
}

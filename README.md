# Spotify-Lyrics: the lyric synchronisation core, in Dafny

This project models the part of `Main.py` that decides when each line of a
song's synced lyrics is printed. It covers:

- the two time conversions, `ts_to_sec` (`[mm:ss.xx]` tag to whole seconds)
  and `ms_to_sec` (milliseconds of playback progress to whole seconds);
- the `play_line` loop, which skips past the lines already behind the
  playback progress, waits for each later line and prints it, and restarts
  after a pause;
- `sleep_check_pause`, the interruptible sleep that the loop uses;
- the polling loop of `show_lyrics`, which raises and clears the pause event
  from what the player reports.

Files, one module each:

- `wrappers.dfy` (`Wrappers`): the `Option` type. A `None` stands for a
  Python exception.
- `pystr.dfy` (`PyStr`): the Python string operations the code relies on:
  `str.split`, `str.replace(c, "")`, `int(str)` and `str(int)`.
- `time_codec.dfy` (`TimeCodec`): `ts_to_sec` and `ms_to_sec`.
- `lyric_clock.dfy` (`LyricClock`): `play_line` and `sleep_check_pause`.
  - `Step` is one pass of the loop, as a function of the loop variables.
  - `Run` iterates `Step` to the end and is what the imperative loop is proved against.
  - The class `Player` holds `self.paused`, the printed lines and the
    requested sleeps. Its methods `SleepCheckPause`, `Iterate` and
    `PlayLine` run the loop imperatively and are proved to produce exactly
    what `Run` describes.
- `lyric_clock_properties.dfy` (`LyricClockProperties`): what `Run` does
  with and without pauses.
- `pause_control.dfy` (`PauseControl`): the `show_lyrics` flags, as one
  function per poll (`Poll`), its fold over the readings (`PollAll`) and
  the loop `Watch`.

Everything the real program learns from outside reaches the model as
parameters:

- the lyric file arrives as its list of lines;
- the progress the player reports arrives in milliseconds;
- the pause event arrives through an oracle, a sequence with one
  `Interrupt` per call of `sleep_check_pause`. Each entry says whether the
  event was seen during that sleep, at which 0.1 s poll, and what progress
  the player reports after resuming;
- each poll of `show_lyrics` arrives as an `Observation`.

Behaviour of the code that the model keeps as written:

- A malformed lyric line (a tag that `ts_to_sec` cannot read, or no `]`
  before the text) makes the code raise, which ends the player thread; the
  line is not skipped. The model's `Run` ends with `crashed` set.
- `show_lyrics` treats the song as paused whenever the lookup of
  `current["actions"]["disallows"]["resuming"]` raises, whether the key is
  missing or the playback state cannot be read at all.
- After a pause during the wait for the first line, `play_line` shows that
  line anyway and starts again from line 0 with the progress it read
  before the pause. Only a pause during a later wait re-reads the progress
  (`PauseOnFirstLineRepeats`, `FirstLineShownTwice`).

## Model

| member | source | states |
|---|---|---|
| PyStr.Split | Main.py:126-127 | `s.split(sep)` gives at least one piece, and no piece contains the separator |
| PyStr.JoinSplit | Main.py:183 | joining the pieces of a split with the separator gives back the original text, so splitting a file into lines loses nothing |
| PyStr.Remove | Main.py:125 | `replace(c, "")` leaves no `c` and keeps every other character that was present |
| PyStr.ParseInt | Main.py:127 | definition of `int(s)` on a string: an optional sign and decimal digits, anything else raising; ParseIntToString states that it reads back `str(n)` |
| PyStr.IntToString | Main.py:110 | definition of `str(n)` (the f-string `f"{seconds}"`) for an integer; ParseIntToString states its round trip with `int` |
| PyStr.ParseIntToString | Main.py:110-111 | `int(str(n)) == n` for every integer, which is how the callers read `ms_to_sec`'s string result back |
| TimeCodec.TsToSec | Main.py:113-128 | definition of `ts_to_sec`: remove the brackets, cut at the first `.`, read the first two `:` fields as integers; TsToSecOfTag and TsToSecNeedsColon state what it returns |
| TimeCodec.Unbracket | Main.py:125 | definition of `replace("]", "").replace("[", "")`; UnbracketTag states that on `[mm:ss` it leaves `mm:ss` |
| TimeCodec.TsToSecOfTag | Main.py:124-128 | `[mm:ss` alone (as `line.split("]")[0]` hands it over), or followed by `.fraction` or by `]`, decodes to `mm * 60 + ss` whole seconds, with the fraction dropped |
| TimeCodec.TsToSecNeedsColon | Main.py:127 | a tag with no `:` has no seconds field, so `ts_to_sec` fails |
| TimeCodec.WholeSeconds | Main.py:106-109 | definition of the whole seconds `ms_to_sec` computes; WholeSecondsIsFloor states that they are `ms div 1000` |
| TimeCodec.Trunc | Main.py:107-109 | definition of Python's `int()` on a float, truncation toward zero; WholeSeconds uses it and WholeSecondsIsFloor states the result |
| TimeCodec.FloatMod | Main.py:109 | definition of Python's `%` on floats with a positive divisor, the result taking the divisor's sign; WholeSeconds uses it and WholeSecondsIsFloor states the result |
| TimeCodec.MsToSec | Main.py:95-111 | definition of `ms_to_sec`, which returns the seconds as a decimal string; MsToSecWhole states what `int` reads back from it |
| TimeCodec.WholeSecondsIsFloor | Main.py:106-109 | `int(t // 60) * 60 + int(t % 60)` with `t = ms / 1000` equals `ms div 1000` |
| TimeCodec.MsToSecWhole | Main.py:106-111 | `int(ms_to_sec(ms)) == ms div 1000` for every integer `ms` |
| TimeCodec.ReadProgress | Main.py:177 | the progress `play_line` works with is the reported milliseconds divided by 1000, rounded down |
| LyricClock.TsOf | Main.py:191-192 | definition of `ts_to_sec(line.split("]")[0])`; LineOfTag and QuietRunCrashes state its value and its failure |
| LyricClock.TextOf | Main.py:196 | definition of `line.split("]")[1]`, `None` being the IndexError; LineOfTag and MissingTextCrashes state its value and its failure |
| LyricClock.PauseReported | Main.py:255-257 | definition of which pauses the `while time.time() - start_time < duration` loop sees: those at a 0.1 s poll `atPoll < 10 * duration`; Player.SleepCheckPause, PauseWhileEmittingRestarts, PauseOnFirstLineRepeats and FirstLineShownTwice rely on it |
| LyricClock.Start | Main.py:176-184 | definition of the loop state before the first iteration: `i = 0`, `counter = 0`, `last_time = 0`, `self.paused` clear and the progress `int(ms_to_sec(progress_ms))`; Player.PlayLine and PlayWithoutPause start from it |
| LyricClock.LineOfTag | Main.py:191-196 | a line `[mm:ss]text` or `[mm:ss.frac]text` has time `mm * 60 + ss` and prints the text up to the next `]` |
| LyricClock.ParseAll | Main.py:183-192 | one time and text per line of the file, in order |
| LyricClock.Step | Main.py:186-219 | definition of one pass of the loop body on the loop variables; StepShape states its shape and Player.Iterate runs it imperatively |
| LyricClock.StepShape | Main.py:193-219 | one pass prints and sleeps at most once; unless it raises it leaves `self.paused` clear and either moves to the next line or consumes a reported pause and goes back to line 0; whatever it prints is the text of the current line |
| LyricClock.Run | Main.py:185-219 | the loop terminates for every finite sequence of interrupts; unless it raised it leaves `self.paused` clear; it prints and sleeps at most once per iteration |
| LyricClock.Player.SleepCheckPause | Main.py:246-265 | it sets `self.paused` exactly when the event is seen at a poll before `duration` has passed; a duration of 0 or less returns at once; the sleep is recorded and nothing is printed |
| LyricClock.Player.Iterate | Main.py:186-219 | one pass of the loop body on the object's state produces exactly `Step`'s move: next loop variables, printed line, sleep, flag and exception |
| LyricClock.Player.PlayLine | Main.py:176-219 | running the loop prints exactly `Run`'s output and requests exactly its sleeps, and it raises or leaves `self.paused` set exactly when `Run` says so |
| LyricClockProperties.FirstDue | Main.py:193-206 | the first line from a given index on whose time is not before the progress; every line before it is earlier than the progress |
| LyricClockProperties.SkipPhase | Main.py:204-206 | before the first line is shown, every line earlier than the progress is passed over without printing or sleeping |
| LyricClockProperties.EmitPhase | Main.py:207-219 | once the first line is shown and with no pause, every remaining line is printed in order, each after sleeping the gap since the previous line's time |
| LyricClockProperties.QuietRun | Main.py:185-219 | with no pause, the loop prints exactly the texts from the first line due at the progress on, each once. The first wait is that line's time minus the progress and is never negative; later waits are the gaps between line times. Nothing is printed exactly when every line is earlier than the progress |
| LyricClockProperties.PlayWithoutPause | Main.py:176-219 | `play_line` from a reported progress of `ms` milliseconds with no pause prints exactly the lines from the first one due at `ms div 1000`, after waits as in QuietRun, and runs one iteration per line |
| LyricClockProperties.QuietRunCrashes | Main.py:191-192 | with no pause, a line whose time tag does not parse ends the loop in an exception |
| LyricClockProperties.MissingTextCrashes | Main.py:196 | with no pause, a line with no `]` after its tag raises once the loop reaches it while showing lines or after a due line |
| LyricClockProperties.TaggedLine | Main.py:191-196 | a line `[mm:ss]text` or `[mm:ss.frac]text` without a further `]` parses to `mm * 60 + ss` and `text` |
| LyricClockProperties.RunIgnoresLastTime | Main.py:193-206 | until the first line is shown, the value of `last_time` makes no difference to the run |
| LyricClockProperties.PauseWhileEmittingRestarts | Main.py:210-216 | a pause seen while waiting for a later line suppresses that line; the rest of the run is a new run from line 0 at the progress the player reports after resuming |
| LyricClockProperties.ResumeAtReportedProgress | Main.py:210-216 | after such a pause, whether the player skipped forward or back, the loop prints exactly the lines due at the newly reported progress |
| LyricClockProperties.PauseOnFirstLineRepeats | Main.py:195-201 | a pause seen while waiting for the first due line still prints that line, and the loop starts again from line 0 with the old progress |
| LyricClockProperties.FirstLineShownTwice | Main.py:194-201 | when only the first wait is paused, the first due line is printed twice and then the rest follow in order |
| PauseControl.Poll | Main.py:232-243 | from consistent flags (`paused == not resumed`, event set exactly when paused) one poll keeps them consistent and leaves the event set exactly when the poll found the song paused; the event is called, with `set` or `clear`, exactly when its state changes |
| PauseControl.PollAll | Main.py:231-244 | definition of the `while True` loop over a finite sequence of readings; PollAllKeepsConsistent, SameReadingCallsOnce and Watch state its properties |
| PauseControl.PollAllKeepsConsistent | Main.py:229-244 | over any sequence of polls the flags stay consistent; the event follows the last reading; `set` and `clear` calls alternate |
| PauseControl.SameReadingCallsOnce | Main.py:233-243 | however many times the player reports the same state, the loop calls the event at most once, which is the promised idempotence of set and clear |
| PauseControl.Watch | Main.py:229-244 | the loop from `paused = False, resumed = True` ends with the flags, event and calls of `PollAll`, so the invariant holds, the event matches the last reading, and the first call is `set` |

## Left out

- Access to Spotify (`get_current`, `get_song`, OAuth): the progress in milliseconds, the pause oracle and the `show_lyrics` readings are parameters instead.
- A `get_current` that fails while the progress is read (Main.py:177, 215): the model assumes the read succeeds.
- Downloading lyrics (`getlyrics`) and reading the `.lrc` file: the model starts from the list of the file's lines.
- Threads: `play_line` and `show_lyrics` are modelled apart, joined only by the oracle. The interleaving of the two threads is not modelled.
- Wall-clock time: a sleep is recorded as the duration requested. The 0.1 s polls of `sleep_check_pause` are counted by `PollsPerSecond`.
- The wait while the event stays set (Main.py:186-190 and 259-260) changes no variable and only delays. It is not modelled, so a pause that never ends is not modelled either.
- Printing: the `"Song paused!"` and `"Song resumed!"` messages and the two blank lines after each lyric line are dropped; only the lyric texts count as output.
- Pauses without end: the oracle is a finite sequence of interrupts, so the model admits only finitely many reported pauses. Every pause reported during a wait sends the source loop back to line 0, and a pause during the first wait keeps the old progress so that wait starts over in full; with pauses that keep coming, the source loop never ends, which `Run` does not capture.
- `show_lyrics`'s `time.sleep(1)` between polls, its thread start, and the fact that its `while True` never ends: `Watch` runs over a finite sequence of readings.
- TimeCodec.WholeSeconds: computes `ms / 1000`, `//` and `%` exactly on rationals instead of on IEEE doubles, so the rounding of the double quotient is not modelled.
- PyStr.ParseInt: accepts only an optional sign followed by ASCII digits. Python's `int` also accepts surrounding whitespace, underscores between digits and other Unicode digits.
- Module start-up code and the `__main__` banner.

/**
 * The two time conversions of `Main`: `ts_to_sec`, which decodes the
 * `[mm:ss.xx]` tag of a lyric line, and `ms_to_sec`, which turns a playback
 * progress in milliseconds into whole seconds (as a decimal string).
 */
module TimeCodec {
  import opened Wrappers
  import opened PyStr

  /**
   * `ts_to_sec`: drop every bracket, cut at the first '.', then read the
   * first two ':'-separated fields as minutes and seconds. `None` stands for
   * the ValueError or IndexError Python raises on anything else.
   */
  function TsToSec(ts: string): Option<int> {
    var bare := Unbracket(ts);
    var whole := Split(bare, '.')[0];
    var fields := Split(whole, ':');
    if |fields| < 2 then None
    else
      match (ParseInt(fields[0]), ParseInt(fields[1]))
      case (Some(minutes), Some(seconds)) => Some(minutes * 60 + seconds)
      case _ => None
  }

  /** Digit strings hold none of the characters `ts_to_sec` cuts at. */
  lemma DigitsFree(s: string)
    requires AllDigits(s)
    ensures '[' !in s && ']' !in s && '.' !in s && ':' !in s
  {
    forall ch | ch in s ensures IsDigit(ch) {
      var k :| 0 <= k < |s| && s[k] == ch;
    }
  }

  /** `ts.replace("]", "").replace("[", "")`. */
  function Unbracket(ts: string): string {
    Remove(Remove(ts, ']'), '[')
  }

  lemma UnbracketAppend(a: string, b: string)
    ensures Unbracket(a + b) == Unbracket(a) + Unbracket(b)
  {
    RemoveAppend(a, b, ']');
    RemoveAppend(Remove(a, ']'), Remove(b, ']'), '[');
  }

  lemma UnbracketFree(a: string)
    requires '[' !in a && ']' !in a
    ensures Unbracket(a) == a
  {
    RemoveAbsent(a, ']');
    RemoveAbsent(a, '[');
  }

  /** Removing the brackets of `[mm:ss` followed by `rest` leaves `mm:ss` and the rest unbracketed. */
  lemma UnbracketTag(mm: string, ss: string, rest: string)
    requires AllDigits(mm) && AllDigits(ss)
    ensures Unbracket("[" + mm + ":" + ss + rest) == mm + ":" + ss + Unbracket(rest)
  {
    DigitsFree(mm);
    DigitsFree(ss);
    var core := mm + ":" + ss;
    assert '[' !in core && ']' !in core;
    assert "[" + mm + ":" + ss + rest == "[" + (core + rest);
    UnbracketAppend("[", core + rest);
    UnbracketAppend(core, rest);
    UnbracketFree(core);
    assert Unbracket("[") == "";
  }

  /** The part before the first '.' of `mm:ss` followed by `.frac` or by nothing. */
  lemma WholePart(core: string, tail: string)
    requires '.' !in core
    requires tail == "" || (|tail| > 0 && tail[0] == '.')
    ensures Split(core + tail, '.')[0] == core
  {
    if tail == "" {
      assert core + tail == core;
      SplitWithout(core, '.');
    } else {
      assert core + tail == core + ['.'] + tail[1..];
      SplitAfterPiece(core, '.', tail[1..]);
    }
  }

  /** `int(s)` on a non-empty string of digits is its decimal value. */
  lemma ParseDigits(s: string)
    requires |s| > 0 && AllDigits(s)
    ensures ParseInt(s) == Some(DigitsValue(s))
  {
    assert IsDigit(s[0]);
  }

  /** The minutes and seconds fields `ts_to_sec` reads from a well-formed tag. */
  lemma FieldsOfTag(mm: string, ss: string, rest: string)
    requires AllDigits(mm) && AllDigits(ss)
    requires rest == "" || rest == "]" || (|rest| > 0 && rest[0] == '.')
    ensures Split(Split(Unbracket("[" + mm + ":" + ss + rest), '.')[0], ':') == [mm, ss]
  {
    DigitsFree(mm);
    DigitsFree(ss);
    var core := mm + ":" + ss;
    UnbracketTag(mm, ss, rest);
    var tail := Unbracket(rest);
    if rest == "" {
      assert Unbracket("") == "";
    } else if rest == "]" {
      assert Unbracket("]") == "";
    } else {
      assert rest == ['.'] + rest[1..];
      UnbracketAppend(['.'], rest[1..]);
      assert Unbracket(['.']) == ['.'];
    }
    assert '.' !in core;
    WholePart(core, tail);
    assert core == mm + [':'] + ss;
    SplitAfterPiece(mm, ':', ss);
    SplitWithout(ss, ':');
  }

  /**
   * A tag `[mm:ss` followed by nothing (as `line.split("]")[0]` leaves it),
   * by `.` and any fraction, or by a bare `]`, decodes to `mm * 60 + ss`: the
   * fraction is discarded, never rounded.
   */
  lemma TsToSecOfTag(mm: string, ss: string, rest: string)
    requires |mm| > 0 && AllDigits(mm) && |ss| > 0 && AllDigits(ss)
    requires rest == "" || rest == "]" || (|rest| > 0 && rest[0] == '.')
    ensures TsToSec("[" + mm + ":" + ss + rest) == Some(DigitsValue(mm) * 60 + DigitsValue(ss))
  {
    var tag := "[" + mm + ":" + ss + rest;
    FieldsOfTag(mm, ss, rest);
    TsToSecOfFields(tag, mm, ss);
  }

  /** `ts_to_sec` of a tag whose minutes and seconds fields are the digit strings `mm` and `ss`. */
  lemma TsToSecOfFields(ts: string, mm: string, ss: string)
    requires |mm| > 0 && AllDigits(mm) && |ss| > 0 && AllDigits(ss)
    requires Split(Split(Unbracket(ts), '.')[0], ':') == [mm, ss]
    ensures TsToSec(ts) == Some(DigitsValue(mm) * 60 + DigitsValue(ss))
  {
    ParseDigits(mm);
    ParseDigits(ss);
  }

  /**
   * A tag with no ':' has no seconds field: `ts.split(":")[1]` raises
   * IndexError, so `ts_to_sec` fails whatever else the tag holds.
   */
  lemma TsToSecNeedsColon(ts: string)
    requires ':' !in ts
    ensures TsToSec(ts) == None
  {
    var bare := Unbracket(ts);
    assert ':' !in Remove(ts, ']');
    assert ':' !in bare;
    SplitFirstWithout(bare, '.', ':');
    SplitWithout(Split(bare, '.')[0], ':');
  }

  /** Python's `int(x)` on a float: truncation toward zero. */
  function Trunc(x: real): int {
    if x >= 0.0 then x.Floor else -((-x).Floor)
  }

  /** Python's `x % y` on floats for a positive `y`: the result has the sign of `y`. */
  function FloatMod(x: real, y: real): real
    requires y > 0.0
  {
    x - y * ((x / y).Floor as real)
  }

  /**
   * The whole seconds `ms_to_sec` computes, in exact arithmetic:
   * `int(t // 60) * 60 + int(t % 60)` with `t = ms / 1000`.
   */
  function WholeSeconds(ms: int): int {
    var totalSeconds := ms as real / 1000.0;
    var minutes := (totalSeconds / 60.0).Floor;
    var minSecs := minutes * 60;
    Trunc(FloatMod(totalSeconds, 60.0)) + minSecs
  }

  /** `ms_to_sec`, which returns its result formatted as a decimal string. */
  function MsToSec(ms: int): string {
    IntToString(WholeSeconds(ms))
  }

  /** Minutes plus the remainder of a minute are the floor of the seconds. */
  lemma {:induction false} WholeSecondsIsFloor(ms: int)
    ensures WholeSeconds(ms) == ms / 1000
  {
    var t := ms as real / 1000.0;
    var f := (t / 60.0).Floor;
    assert f as real <= t / 60.0 < f as real + 1.0;
    var r := FloatMod(t, 60.0);
    assert r == t - 60.0 * f as real;
    assert 0.0 <= r < 60.0;
    var g := r.Floor;
    assert Trunc(r) == g;
    assert g as real <= r < g as real + 1.0;
    var q := ms / 1000;
    var rr := ms % 1000;
    assert ms == 1000 * q + rr && 0 <= rr < 1000;
    assert t == q as real + rr as real / 1000.0;
    assert q as real <= t < q as real + 1.0;
    assert (g + 60 * f) as real <= t < (g + 60 * f) as real + 1.0;
    assert g + 60 * f == q;
  }

  /**
   * What the callers get back from `int(ms_to_sec(ms))`: the progress in whole
   * seconds, the fraction truncated (toward minus infinity for negatives).
   */
  lemma MsToSecWhole(ms: int)
    ensures ParseInt(MsToSec(ms)) == Some(ms / 1000)
  {
    WholeSecondsIsFloor(ms);
    ParseIntToString(WholeSeconds(ms));
  }

  /** `int(self.ms_to_sec(progress_ms))`, as `play_line` reads the progress. */
  function ReadProgress(ms: int): (seconds: int)
    ensures seconds == ms / 1000
  {
    MsToSecWhole(ms);
    ParseInt(MsToSec(ms)).value
  }
}

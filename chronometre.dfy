/**
 * The countdown timer: a time in seconds counted down once a second while running,
 * a reset value set by the minutes editor, quick add/subtract buttons, the MM:SS
 * display and the colour that follows the remaining fraction of the time.
 */
module Chronometre {
  import opened Wrappers
  import opened JsString
  import opened Keyboard

  const DefaultTime := 300

  // ---------------------------------------------------------------------------------
  // One second of the interval

  datatype Clock = Clock(time: int, running: bool)

  /** The interval is armed exactly while running with time left. */
  predicate Armed(c: Clock) { c.running && c.time > 0 }

  /** The interval's update: the last second stops the timer at 0, any other second counts down. */
  function Tick(c: Clock): (r: Clock)
    requires Armed(c)
    ensures c.time == 1 ==> r == Clock(0, false)
    ensures c.time > 1 ==> r == Clock(c.time - 1, true)
    ensures r.time >= 0
  {
    if c.time <= 1 then Clock(0, false) else Clock(c.time - 1, true)
  }

  /** `n` seconds of wall-clock time: a second does nothing once the interval is disarmed. */
  function Run(c: Clock, n: nat): Clock
    decreases n
  {
    if n == 0 then c
    else if Armed(c) then Run(Tick(c), n - 1)
    else Run(c, n - 1)
  }

  /** A running countdown from `t` shows `t - k` after `k < t` seconds and has stopped at 0 after `t` seconds. */
  lemma {:induction false} CountdownReachesZero(t: nat, k: nat)
    requires t > 0 && k <= t
    ensures Run(Clock(t, true), k) == if k < t then Clock(t - k, true) else Clock(0, false)
  {
    if k > 0 {
      if t == 1 {
        StoppedStaysStopped(Clock(0, false), k - 1);
      } else {
        CountdownReachesZero(t - 1, k - 1);
      }
    }
  }

  /** Once disarmed the clock stays where it is, however long one waits. */
  lemma {:induction false} StoppedStaysStopped(c: Clock, n: nat)
    requires !Armed(c)
    ensures Run(c, n) == c
  {
    if n > 0 {
      StoppedStaysStopped(c, n - 1);
    }
  }

  /** The default five minutes run out after exactly 300 seconds and then stay at 0. */
  lemma DefaultCountdown(extra: nat)
    ensures Run(Clock(DefaultTime, true), DefaultTime - 1) == Clock(1, true)
    ensures Run(Clock(DefaultTime, true), DefaultTime + extra) == Clock(0, false)
  {
    CountdownReachesZero(DefaultTime, DefaultTime - 1);
    RunSplit(Clock(DefaultTime, true), DefaultTime, extra);
    CountdownReachesZero(DefaultTime, DefaultTime);
    StoppedStaysStopped(Clock(0, false), extra);
  }

  lemma {:induction false} RunSplit(c: Clock, m: nat, n: nat)
    ensures Run(c, m + n) == Run(Run(c, m), n)
    decreases m
  {
    if m > 0 {
      if Armed(c) {
        RunSplit(Tick(c), m - 1, n);
      } else {
        RunSplit(c, m - 1, n);
      }
    }
  }

  // ---------------------------------------------------------------------------------
  // Display

  /** JavaScript's `%`: the remainder takes the sign of the dividend. */
  function TruncRem(a: int, b: int): (r: int)
    requires b > 0
    ensures a >= 0 ==> 0 <= r < b && r == a % b
    ensures a < 0 ==> -b < r <= 0 && r == -((-a) % b)
  {
    if a >= 0 then a % b else -((-a) % b)
  }

  /** A number printed by `toString` and padded with zeros to two characters. */
  function Pad2(n: int): string {
    PadStart(IntToString(n), 2, '0')
  }

  /** `formatTime`: floored minutes and truncated seconds, each padded with zeros to two characters. */
  function FormatTime(seconds: int): string {
    Pad2(seconds / 60) + ":" + Pad2(TruncRem(seconds, 60))
  }

  predicate AllDigits(s: string) { forall k :: 0 <= k < |s| ==> IsDigit(s[k]) }

  /** Leading zeros do not change a numeral's value. */
  lemma {:induction false} LeadingZeros(z: nat, d: string)
    requires AllDigits(d)
    ensures AllDigits(Repeat('0', z) + d)
    ensures NumeralValue(Repeat('0', z) + d, 10) == NumeralValue(d, 10)
  {
    var s := Repeat('0', z) + d;
    if d == [] {
      assert s == Repeat('0', z);
      ZerosValue(z);
    } else {
      var m := |d| - 1;
      LeadingZeros(z, d[..m]);
      assert s[..|s| - 1] == Repeat('0', z) + d[..m];
    }
  }

  lemma {:induction false} ZerosValue(z: nat)
    ensures NumeralValue(Repeat('0', z), 10) == 0
  {
    if z > 0 {
      var s := Repeat('0', z);
      assert s[..|s| - 1] == Repeat('0', z - 1) by {
        RepeatPrefix(z);
      }
      ZerosValue(z - 1);
    }
  }

  lemma RepeatPrefix(z: nat)
    requires z > 0
    ensures Repeat('0', z)[..z - 1] == Repeat('0', z - 1)
  {
  }

  /** One- and two-digit numbers print as one and at most two digits. */
  lemma ShortNumeral(n: nat)
    ensures n < 10 ==> |NatToString(n)| == 1
    ensures n < 100 ==> |NatToString(n)| <= 2
  {
    if 10 <= n < 100 {
      assert |NatToString(n / 10)| == 1;
    }
  }

  /** Padding a numeral with zeros to two characters keeps its digits and its value. */
  lemma PadDigits(d: string)
    requires AllDigits(d)
    ensures AllDigits(PadStart(d, 2, '0'))
    ensures NumeralValue(PadStart(d, 2, '0'), 10) == NumeralValue(d, 10)
    ensures |d| <= 2 ==> |PadStart(d, 2, '0')| == 2
  {
    if |d| < 2 {
      LeadingZeros(2 - |d|, d);
    }
  }

  /** A zero-padded numeral of a non-negative number still denotes it. */
  lemma PaddedValue(n: nat)
    ensures AllDigits(Pad2(n))
    ensures NumeralValue(Pad2(n), 10) == n
    ensures n < 100 ==> |Pad2(n)| == 2
  {
    assert IntToString(n) == NatToString(n);
    PadDigits(NatToString(n));
    ShortNumeral(n);
  }

  /**
   * For a non-negative time the display reads back: the digits before the colon are
   * the whole minutes, the two digits after it the remaining seconds (below 60).
   */
  lemma FormatTimeReadsBack(seconds: nat)
    ensures var r := FormatTime(seconds);
      && |r| >= 5 && r[|r| - 3] == ':'
      && AllDigits(r[..|r| - 3]) && AllDigits(r[|r| - 2..])
      && NumeralValue(r[|r| - 2..], 10) < 60
      && NumeralValue(r[..|r| - 3], 10) * 60 + NumeralValue(r[|r| - 2..], 10) == seconds
  {
    var mins, secs := seconds / 60, seconds % 60;
    assert TruncRem(seconds, 60) == secs;
    PaddedValue(mins);
    PaddedValue(secs);
    assert FormatTime(seconds) == Pad2(mins) + ":" + Pad2(secs);
    SplitAtColon(Pad2(mins), Pad2(secs));
    assert mins * 60 + secs == seconds;
  }

  lemma SplitAtColon(m: string, s: string)
    requires |s| == 2
    ensures var r := m + ":" + s;
      |r| == |m| + 3 && r[|r| - 3] == ':' && r[..|r| - 3] == m && r[|r| - 2..] == s
  {
  }

  /** Below 100 minutes the display is exactly five characters, MM:SS. */
  lemma FormatTimeWidth(seconds: nat)
    requires seconds < 6000
    ensures |FormatTime(seconds)| == 5
  {
    var mins, secs := seconds / 60, seconds % 60;
    assert TruncRem(seconds, 60) == secs;
    PaddedValue(mins);
    PaddedValue(secs);
    assert FormatTime(seconds) == Pad2(mins) + ":" + Pad2(secs);
  }

  /** A one-digit number pads to a zero and its digit. */
  lemma PadDigit(n: nat)
    requires n < 10
    ensures Pad2(n) == ['0', DigitChar(n)]
  {
    assert IntToString(n) == [DigitChar(n)];
  }

  /** A negative number prints as a minus sign and its digits, already at least two characters long. */
  lemma PadNegative(r: int)
    requires r < 0
    ensures Pad2(r) == "-" + NatToString(-r)
  {
    assert IntToString(r) == "-" + NatToString(-r);
  }

  /** Whole minutes below ten show as "0M:00": the default five minutes show "05:00". */
  lemma FormatWholeMinutes(m: nat)
    requires m < 10
    ensures FormatTime(m * 60) == ['0', DigitChar(m), ':', '0', '0']
  {
    assert (m * 60) / 60 == m && TruncRem(m * 60, 60) == 0;
    PadDigit(m);
    PadDigit(0);
  }

  /**
   * A negative time, which the minutes editor can produce, shows floored (negative)
   * minutes and, unless it is a whole number of minutes, seconds with their own minus
   * sign: -301 shows as "-6:-1".
   */
  lemma FormatNegativeTime(t: int)
    requires t < 0 && t % 60 != 0
    ensures t / 60 < 0 && TruncRem(t, 60) < 0
    ensures FormatTime(t) == Pad2(t / 60) + ":" + "-" + NatToString(-TruncRem(t, 60))
  {
    var r := TruncRem(t, 60);
    assert (-t) % 60 != 0;
    PadNegative(r);
    assert FormatTime(t) == Pad2(t / 60) + ":" + Pad2(r);
  }

  datatype TimerColor = Chart1 | Chart2 | Chart3

  /**
   * The colour rule in exact integer arithmetic: half and a quarter of the reset value,
   * cross-multiplied, the comparisons reversing for a negative reset value. A zero reset
   * value makes the ratio an infinity or NaN: only a positive time passes the first test.
   */
  function ColorByCounts(time: int, initialTime: int): TimerColor {
    if initialTime > 0 then
      if 2 * time > initialTime then Chart1 else if 4 * time > initialTime then Chart2 else Chart3
    else if initialTime < 0 then
      if 2 * time < initialTime then Chart1 else if 4 * time < initialTime then Chart2 else Chart3
    else if time > 0 then Chart1 else Chart3
  }

  /**
   * `getTimerColor`: the colour from the ratio of the time to the reset value, above
   * one half and above one quarter. The source divides in floating point; here the
   * ratio is exact, and a zero reset value gives the infinities (positive and negative
   * time) or NaN (zero time), every comparison with NaN failing.
   */
  function ColorOf(time: int, initialTime: int): (c: TimerColor)
    ensures c == ColorByCounts(time, initialTime)
  {
    if initialTime == 0 then
      if time > 0 then Chart1 else Chart3
    else
      var ratio := time as real / initialTime as real;
      RatioCompare(time, initialTime, ratio);
      if ratio > 0.5 then Chart1 else if ratio > 0.25 then Chart2 else Chart3
  }

  lemma RatioCompare(time: int, initialTime: int, ratio: real)
    requires initialTime != 0 && ratio == time as real / initialTime as real
    ensures initialTime > 0 ==> (ratio > 0.5 <==> 2 * time > initialTime) && (ratio > 0.25 <==> 4 * time > initialTime)
    ensures initialTime < 0 ==> (ratio > 0.5 <==> 2 * time < initialTime) && (ratio > 0.25 <==> 4 * time < initialTime)
  {
    if initialTime > 0 {
      RatioPositive(time, initialTime, ratio);
    } else {
      assert ratio == (-time) as real / (-initialTime) as real;
      RatioPositive(-time, -initialTime, ratio);
    }
  }

  lemma RatioPositive(time: int, initialTime: int, ratio: real)
    requires initialTime > 0 && ratio == time as real / initialTime as real
    ensures (ratio > 0.5 <==> 2 * time > initialTime) && (ratio > 0.25 <==> 4 * time > initialTime)
  {
    RealRatio(time as real, initialTime as real, ratio);
  }

  /** The two thresholds of a quotient by a positive number, cross-multiplied. */
  lemma RealRatio(t: real, i: real, r: real)
    requires i > 0.0 && r == t / i
    ensures (r > 0.5 <==> 2.0 * t > i) && (r > 0.25 <==> 4.0 * t > i)
  {
    DivTimes(t, i);
    RealScale(r, 0.5, i);
    RealScale(r, 0.25, i);
  }

  lemma DivTimes(t: real, i: real)
    requires i > 0.0
    ensures (t / i) * i == t
  {
  }

  /** Multiplying by a positive number keeps the order. */
  lemma RealScale(a: real, b: real, c: real)
    requires c > 0.0
    ensures a > b <==> a * c > b * c
  {
    if a > b {
      assert (a - b) * c > 0.0;
    } else {
      assert (b - a) * c >= 0.0;
    }
  }

  function Rank(c: TimerColor): nat {
    match c
    case Chart1 => 2
    case Chart2 => 1
    case Chart3 => 0
  }

  /** With a positive reset value, less time never shows a "fuller" colour: the colour only darkens as time runs out. */
  lemma ColorMonotone(t: int, t': int, initialTime: int)
    requires initialTime > 0 && t <= t'
    ensures Rank(ColorOf(t, initialTime)) <= Rank(ColorOf(t', initialTime))
  {
    assert ColorOf(t, initialTime) == ColorByCounts(t, initialTime);
  }

  /** A just reset timer (positive reset value) is in the first colour; an elapsed one is in the last. */
  lemma ColorAtEnds(initialTime: int)
    requires initialTime > 0
    ensures ColorOf(initialTime, initialTime) == Chart1
    ensures ColorOf(0, initialTime) == Chart3
  {
  }

  // ---------------------------------------------------------------------------------
  // Handlers

  /**
   * `addTime`: the update `max(0, time + seconds)` is queued, but when the timer is
   * stopped at 0 the plain `setTime(seconds)` queued after it wins.
   */
  function AddTime(time: int, running: bool, seconds: int): (r: int)
    ensures !running && time == 0 ==> r == seconds
    ensures running || time != 0 ==> r >= 0 && (time + seconds >= 0 ==> r == time + seconds)
    ensures running || time != 0 ==> (time + seconds < 0 ==> r == 0)
  {
    if !running && time == 0 then seconds else if time + seconds >= 0 then time + seconds else 0
  }

  /** The quick buttons: +1, +5, +10 minutes, and -1 / -5 minutes with their disabled states. */
  const QuickAdds: seq<int> := [60, 300, 600]

  predicate MinusEnabled(time: int, seconds: int) { time >= seconds }

  /** An enabled quick button never drives a non-negative time below 0 and adds or removes exactly its amount. */
  lemma QuickButtonsExact(time: int, running: bool, k: nat, minus: int)
    requires time >= 0 && k < |QuickAdds|
    requires minus == 60 || minus == 300
    ensures AddTime(time, running, QuickAdds[k]) == time + QuickAdds[k]
    ensures MinusEnabled(time, minus) ==> AddTime(time, running, -minus) == time - minus
  {
  }

  /** The start button is disabled exactly when the timer is stopped at 0. */
  predicate StartDisabled(time: int, running: bool) { time == 0 && !running }

  /** From a stopped, non-negative time, the start button is enabled exactly when pressing
      it arms the countdown: the guard only keeps out the start that would never tick. */
  lemma StartEnabledArms(time: int)
    requires time >= 0
    ensures !StartDisabled(time, false) <==> Armed(Clock(time, true))
  {
  }

  /** `saveTime`: the draft parsed as whole minutes (`NaN` and 0 both give 0), times 60. */
  function SavedTime(draft: string): (r: int)
    ensures r % 60 == 0
    ensures ParseInt(draft).None? ==> r == 0
  {
    var minutes := ParseInt(draft).GetOr(0);
    WholeMinutes(minutes);
    minutes * 60
  }

  lemma WholeMinutes(m: int)
    ensures (m * 60) % 60 == 0
  {
  }

  /** Opening the editor and saving at once rounds the time down to whole minutes. */
  lemma EditRoundsToMinutes(time: int)
    ensures SavedTime(IntToString(time / 60)) == (time / 60) * 60
    ensures time >= 0 ==> 0 <= time - SavedTime(IntToString(time / 60)) < 60
  {
    ParseIntToString(time / 60);
  }

  /** The editor accepts a minus sign, so a saved time can be negative: "-5" saves -300. */
  lemma SavedNegativeMinutes(n: nat)
    requires n > 0
    ensures SavedTime("-" + NatToString(n)) == -(n as int) * 60 < 0
  {
    ParseIntToString(-(n as int));
    assert IntToString(-(n as int)) == "-" + NatToString(n);
  }

  /** An empty draft saves 0, as `NaN` does. */
  lemma SavedEmptyDraft()
    ensures SavedTime("") == 0
  {
    ParseIntEmpty();
  }

  /** Whether the quick buttons panel is shown after `toggleControls`: unchanged when hiding the controls,
      forced off when showing them. */
  function QuickButtonsAfterToggleControls(showControls: bool, showQuickButtons: bool): (r: bool)
    ensures showControls ==> r == showQuickButtons
    ensures !showControls ==> !r
  {
    if !showControls then false else showQuickButtons
  }

  class Timer {
    var time: int
    var initialTime: int
    var isRunning: bool
    var isEditingTime: bool
    var tempTime: string
    var showControls: bool
    var showQuickButtons: bool

    /** The draft exists only while the minutes editor is open. */
    ghost predicate Valid()
      reads this
    {
      !isEditingTime ==> tempTime == ""
    }

    constructor ()
      ensures Valid()
      ensures time == DefaultTime && initialTime == DefaultTime
      ensures !isRunning && !isEditingTime && tempTime == ""
      ensures showControls && showQuickButtons
    {
      time, initialTime := DefaultTime, DefaultTime;
      isRunning, isEditingTime, tempTime := false, false, "";
      showControls, showQuickButtons := true, true;
    }

    function Display(): string
      reads this
    {
      FormatTime(time)
    }

    function Color(): TimerColor
      reads this
    {
      ColorOf(time, initialTime)
    }

    /** One second passes: the interval, when armed, applies its update. */
    method Second()
      modifies this
      ensures Armed(old(Clock(time, isRunning))) ==> Clock(time, isRunning) == Tick(old(Clock(time, isRunning)))
      ensures !Armed(old(Clock(time, isRunning))) ==> time == old(time) && isRunning == old(isRunning)
      ensures initialTime == old(initialTime) && isEditingTime == old(isEditingTime) && tempTime == old(tempTime)
      ensures showControls == old(showControls) && showQuickButtons == old(showQuickButtons)
    {
      if isRunning && time > 0 {
        if time <= 1 {
          isRunning := false;
          time := 0;
        } else {
          time := time - 1;
        }
      }
    }

    method ToggleTimer()
      modifies this
      ensures isRunning == !old(isRunning)
      ensures time == old(time) && initialTime == old(initialTime) && isEditingTime == old(isEditingTime)
      ensures tempTime == old(tempTime) && showControls == old(showControls) && showQuickButtons == old(showQuickButtons)
    {
      isRunning := !isRunning;
    }

    method ResetTimer()
      modifies this
      ensures !isRunning && time == initialTime
      ensures initialTime == old(initialTime) && isEditingTime == old(isEditingTime)
      ensures tempTime == old(tempTime) && showControls == old(showControls) && showQuickButtons == old(showQuickButtons)
    {
      isRunning := false;
      time := initialTime;
    }

    method HandleAddTime(seconds: int)
      modifies this
      ensures time == AddTime(old(time), old(isRunning), seconds)
      ensures isRunning == old(isRunning) && initialTime == old(initialTime) && isEditingTime == old(isEditingTime)
      ensures tempTime == old(tempTime) && showControls == old(showControls) && showQuickButtons == old(showQuickButtons)
    {
      var queued := if time + seconds >= 0 then time + seconds else 0;
      if !isRunning && time == 0 {
        queued := seconds;
      }
      time := queued;
    }

    /** Clicking the display opens the minutes editor holding the whole minutes of the time. */
    method StartEditingTime()
      modifies this
      ensures Valid()
      ensures isEditingTime && tempTime == IntToString(old(time) / 60)
      ensures time == old(time) && initialTime == old(initialTime) && isRunning == old(isRunning)
      ensures showControls == old(showControls) && showQuickButtons == old(showQuickButtons)
    {
      tempTime := IntToString(time / 60);
      isEditingTime := true;
    }

    /** Typing in the minutes editor (which is shown only while editing). */
    method SetTempTime(value: string)
      requires isEditingTime
      modifies this
      ensures Valid()
      ensures tempTime == value
      ensures time == old(time) && initialTime == old(initialTime) && isRunning == old(isRunning)
      ensures isEditingTime && showControls == old(showControls) && showQuickButtons == old(showQuickButtons)
    {
      tempTime := value;
    }

    /** Enter or leaving the field: the draft becomes both the time and the reset value. */
    method SaveTime()
      modifies this
      ensures Valid()
      ensures time == SavedTime(old(tempTime)) && initialTime == time
      ensures !isEditingTime && tempTime == ""
      ensures isRunning == old(isRunning) && showControls == old(showControls) && showQuickButtons == old(showQuickButtons)
    {
      var minutes := ParseInt(tempTime).GetOr(0);
      time := minutes * 60;
      initialTime := minutes * 60;
      isEditingTime := false;
      tempTime := "";
    }

    method CancelEditingTime()
      modifies this
      ensures Valid()
      ensures !isEditingTime && tempTime == ""
      ensures time == old(time) && initialTime == old(initialTime) && isRunning == old(isRunning)
      ensures showControls == old(showControls) && showQuickButtons == old(showQuickButtons)
    {
      isEditingTime := false;
      tempTime := "";
    }

    method HandleTimeKeyPress(key: Key)
      requires Valid()
      modifies this
      ensures Valid()
      ensures key == Enter ==> time == SavedTime(old(tempTime)) && initialTime == time && !isEditingTime
      ensures key == Escape ==> time == old(time) && initialTime == old(initialTime) && !isEditingTime
      ensures key == OtherKey ==> (time == old(time) && initialTime == old(initialTime)
                                   && isEditingTime == old(isEditingTime) && tempTime == old(tempTime))
      ensures isRunning == old(isRunning) && showControls == old(showControls) && showQuickButtons == old(showQuickButtons)
    {
      if key == Enter {
        SaveTime();
      }
      if key == Escape {
        CancelEditingTime();
      }
    }

    method ToggleControls()
      modifies this
      ensures showControls == !old(showControls)
      ensures showQuickButtons == QuickButtonsAfterToggleControls(old(showControls), old(showQuickButtons))
      ensures time == old(time) && initialTime == old(initialTime) && isRunning == old(isRunning)
      ensures isEditingTime == old(isEditingTime) && tempTime == old(tempTime)
    {
      var wasShown := showControls;
      showControls := !showControls;
      if !wasShown {
        showQuickButtons := false;
      }
    }

    method ToggleQuickButtons()
      modifies this
      ensures showQuickButtons == !old(showQuickButtons)
      ensures time == old(time) && initialTime == old(initialTime) && isRunning == old(isRunning)
      ensures isEditingTime == old(isEditingTime) && tempTime == old(tempTime) && showControls == old(showControls)
    {
      showQuickButtons := !showQuickButtons;
    }
  }
}

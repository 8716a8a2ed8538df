/**
 * The countdown (components/Timer.tsx): the MM:SS display and the one-second
 * tick that counts the remaining time down and reports completion once.
 */
module Countdown {
  import opened JsBuiltins

  /** String(n).padStart(2, '0'). */
  function TwoDigits(n: int): string {
    PadStart(DecimalString(n), 2, '0')
  }

  /** formatTime: whole minutes, a colon, the remaining seconds, each padded to two digits. */
  function FormatTime(seconds: int): string {
    Clock(seconds / 60, JsRem(seconds, 60))
  }

  /** The MM:SS template on minutes and seconds already computed. */
  function Clock(mins: int, secs: int): string {
    TwoDigits(mins) + ":" + TwoDigits(secs)
  }

  /** Two digits below 100 are exactly two characters and read back as the number. */
  lemma TwoDigitsRoundTrip(n: int)
    requires 0 <= n < 100
    ensures |TwoDigits(n)| == 2
    ensures forall i :: 0 <= i < 2 ==> IsDigit(TwoDigits(n)[i])
    ensures ParseDigits(TwoDigits(n)) == n
  {
    DigitsRoundTrip(n);
    var s := TwoDigits(n);
    if n < 10 {
      assert s == "0" + Digits(n);
      assert s[..1] == "0";
    } else {
      assert s == Digits(n);
    }
  }

  /** Reading an MM:SS string back as a number of seconds. */
  function ParseTime(text: string): int
    requires |text| == 5
    requires IsDigit(text[0]) && IsDigit(text[1]) && IsDigit(text[3]) && IsDigit(text[4])
  {
    ParseDigits(text[..2]) * 60 + ParseDigits(text[3..])
  }

  /** The two halves of an MM:SS string sit on either side of the colon. */
  lemma ColonHalves(m: string, t: string)
    requires |m| == 2 && |t| == 2
    ensures var text := m + ":" + t;
      |text| == 5 && text[..2] == m && text[2] == ':' && text[3..] == t &&
      text[0] == m[0] && text[1] == m[1] && text[3] == t[0] && text[4] == t[1]
  {
  }

  /** Minutes below 100 and seconds below 60 give five characters that read back as the total. */
  lemma ClockRoundTrip(mins: int, secs: int)
    requires 0 <= mins < 100 && 0 <= secs < 60
    ensures var text := Clock(mins, secs);
      |text| == 5 && text[2] == ':' &&
      IsDigit(text[0]) && IsDigit(text[1]) && IsDigit(text[3]) && IsDigit(text[4]) &&
      ParseTime(text) == mins * 60 + secs
  {
    TwoDigitsRoundTrip(mins);
    TwoDigitsRoundTrip(secs);
    ColonHalves(TwoDigits(mins), TwoDigits(secs));
  }

  /** Below 100 minutes the display is five characters, MM:SS, and reads back as the same number of seconds. */
  lemma FormatTimeRoundTrip(seconds: int)
    requires 0 <= seconds < 6000
    ensures var text := FormatTime(seconds);
      |text| == 5 && text[2] == ':' &&
      IsDigit(text[0]) && IsDigit(text[1]) && IsDigit(text[3]) && IsDigit(text[4]) &&
      ParseTime(text) == seconds
  {
    var mins := seconds / 60;
    var secs := seconds % 60;
    assert mins * 60 + secs == seconds && 0 <= mins < 100;
    FormatTimeSplits(seconds, mins, secs);
    ClockRoundTrip(mins, secs);
  }

  /** A non-negative number of seconds splits into whole minutes and the seconds left over. */
  lemma FormatTimeSplits(seconds: int, mins: int, secs: int)
    requires 0 <= seconds && mins == seconds / 60 && secs == seconds % 60
    ensures FormatTime(seconds) == Clock(mins, secs)
  {
  }

  /** Below 100, the padded string is the tens digit then the units digit. */
  lemma TwoDigitsChars(n: int)
    requires 0 <= n < 100
    ensures TwoDigits(n) == [DigitChar(n / 10), DigitChar(n % 10)]
  {
    var tens := n / 10;
    var units := n % 10;
    assert 0 <= tens < 10 && 0 <= units < 10;
    if n < 10 {
      assert tens == 0 && units == n;
      assert DecimalString(n) == [DigitChar(n)];
      assert PadStart([DigitChar(n)], 2, '0') == ['0', DigitChar(n)];
    } else {
      assert Digits(tens) == [DigitChar(tens)];
      assert DecimalString(n) == [DigitChar(tens), DigitChar(units)];
    }
  }

  /** Five characters with a colon in the middle are the two halves joined by it. */
  lemma ColonJoin(m: string, t: string, text: string)
    requires |m| == 2 && |t| == 2 && |text| == 5
    requires text[0] == m[0] && text[1] == m[1] && text[2] == ':' && text[3] == t[0] && text[4] == t[1]
    ensures text == m + ":" + t
  {
  }

  /** The display of minutes and seconds, digit by digit. */
  lemma ClockText(mins: int, secs: int, text: string)
    requires 0 <= mins < 100 && 0 <= secs < 60 && |text| == 5
    requires text[0] == DigitChar(mins / 10) && text[1] == DigitChar(mins % 10) && text[2] == ':'
    requires text[3] == DigitChar(secs / 10) && text[4] == DigitChar(secs % 10)
    ensures Clock(mins, secs) == text
  {
    TwoDigitsChars(mins);
    TwoDigitsChars(secs);
    ColonJoin(TwoDigits(mins), TwoDigits(secs), text);
  }

  /** The displays the tests expect: 90 seconds is 01:30. */
  lemma FormatTimeNinety()
    ensures FormatTime(90) == "01:30"
  {
    FormatTimeSplits(90, 1, 30);
    ClockText(1, 30, "01:30");
  }

  /** 3599 seconds is 59:59, the last value below an hour. */
  lemma FormatTimeLastBeforeHour()
    ensures FormatTime(3599) == "59:59"
  {
    FormatTimeSplits(3599, 59, 59);
    ClockText(59, 59, "59:59");
  }

  /** 0 seconds is 00:00. */
  lemma FormatTimeZero()
    ensures FormatTime(0) == "00:00"
  {
    FormatTimeSplits(0, 0, 0);
    ClockText(0, 0, "00:00");
  }

  /** One run of the setRemainingTime updater: the new remaining time and whether onComplete fired. */
  datatype TickResult = TickResult(remaining: int, fired: bool)

  /**
   * What one interval tick does: nothing while inactive or run out (no
   * interval is set); at 1 second or less the time becomes 0 and onComplete
   * fires; otherwise one second is taken off.
   */
  function TickStep(isActive: bool, remaining: int): (t: TickResult)
    ensures t.fired ==> t.remaining == 0
    ensures remaining >= 0 ==> t.remaining >= 0
    ensures t.remaining <= remaining
  {
    if !isActive || remaining <= 0 then TickResult(remaining, false)
    else if remaining <= 1 then TickResult(0, true)
    else TickResult(remaining - 1, false)
  }

  /** The remaining time and the number of completions after a number of ticks of an active timer. */
  function Run(remaining: int, ticks: nat): TickResult
    decreases ticks
  {
    if ticks == 0 then TickResult(remaining, false)
    else
      var first := TickStep(true, remaining);
      var rest := Run(first.remaining, ticks - 1);
      TickResult(rest.remaining, first.fired || rest.fired)
  }

  /** How many times onComplete fires over a number of ticks. */
  function Completions(remaining: int, ticks: nat): nat
    decreases ticks
  {
    if ticks == 0 then 0
    else
      var first := TickStep(true, remaining);
      (if first.fired then 1 else 0) + Completions(first.remaining, ticks - 1)
  }

  /**
   * A run of a positive whole number of seconds counts down one per tick,
   * never below 0, and fires onComplete exactly once, on the tick that
   * reaches 0; a run that starts at 0 or below does nothing.
   */
  lemma {:induction false} RunSpec(remaining: int, ticks: nat)
    ensures remaining > 0 ==>
      Run(remaining, ticks).remaining == (if ticks >= remaining then 0 else remaining - ticks) &&
      Completions(remaining, ticks) == (if ticks >= remaining then 1 else 0)
    ensures remaining <= 0 ==> Run(remaining, ticks).remaining == remaining && Completions(remaining, ticks) == 0
    ensures Run(remaining, ticks).fired <==> Completions(remaining, ticks) > 0
    decreases ticks
  {
    if ticks > 0 {
      RunSpec(TickStep(true, remaining).remaining, ticks - 1);
    }
  }

  class Timer {
    var duration: int
    var isActive: bool
    var remainingTime: int
    /** How many times onComplete has fired. */
    var completions: nat

    /** Mounting: the remaining time starts at the duration. */
    constructor(duration: int, isActive: bool)
      ensures this.duration == duration && this.isActive == isActive
      ensures remainingTime == duration && completions == 0
    {
      this.duration := duration;
      this.isActive := isActive;
      remainingTime := duration;
      completions := 0;
    }

    /** A new duration prop: the effect resets the remaining time when the duration changed. */
    method SetDuration(newDuration: int)
      modifies this
      ensures duration == newDuration
      ensures remainingTime == if newDuration != old(duration) then newDuration else old(remainingTime)
      ensures isActive == old(isActive) && completions == old(completions)
    {
      if newDuration != duration {
        remainingTime := newDuration;
      }
      duration := newDuration;
    }

    /** A new isActive prop. */
    method SetActive(active: bool)
      modifies this
      ensures isActive == active
      ensures duration == old(duration) && remainingTime == old(remainingTime) && completions == old(completions)
    {
      isActive := active;
    }

    /** One second passes. */
    method Tick() returns (fired: bool)
      modifies this
      ensures TickResult(remainingTime, fired) == TickStep(old(isActive), old(remainingTime))
      ensures completions == old(completions) + (if fired then 1 else 0)
      ensures duration == old(duration) && isActive == old(isActive)
    {
      fired := false;
      if !isActive || remainingTime <= 0 {
        return;
      }
      if remainingTime <= 1 {
        remainingTime := 0;
        fired := true;
        completions := completions + 1;
        return;
      }
      remainingTime := remainingTime - 1;
    }
  }

  /** An inactive timer, or one already at 0, does not change on a tick. */
  lemma NoTickWhenIdle(isActive: bool, remaining: int)
    requires !isActive || remaining <= 0
    ensures TickStep(isActive, remaining) == TickResult(remaining, false)
  {
  }
}

/**
 * Typing metrics (lib/typing/calculator.ts). Durations in seconds are exact
 * rationals; Math.round is JsBuiltins.Round.
 */
module Calculator {
  import opened JsBuiltins

  /** calculateWPM: a word is five characters; the result is rounded to an integer. */
  function CalculateWpm(characterCount: int, durationInSeconds: real): (wpm: int)
    ensures durationInSeconds == 0.0 || characterCount == 0 ==> wpm == 0
    ensures characterCount != 0 && durationInSeconds > 0.0 ==>
      (wpm as real - 0.5) * durationInSeconds <= 12.0 * characterCount as real < (wpm as real + 0.5) * durationInSeconds
  {
    if durationInSeconds == 0.0 || characterCount == 0 then 0
    else
      var words := characterCount as real / 5.0;
      var minutes := durationInSeconds / 60.0;
      WpmBound(characterCount, durationInSeconds, words / minutes);
      if durationInSeconds > 0.0 then
        RoundingScaled(words / minutes, durationInSeconds, 12.0 * characterCount as real);
        Round(words / minutes)
      else Round(words / minutes)
  }

  /** If x * d == y for a positive d, then y lies within half of d of Round(x) * d. */
  lemma RoundingScaled(x: real, d: real, y: real)
    requires d > 0.0
    requires x * d == y
    ensures (Round(x) as real - 0.5) * d <= y
    ensures y < (Round(x) as real + 0.5) * d
  {
    var r := Round(x);
    ScaleLower(x, r as real - 0.5, d);
    ScaleStrict(x, r as real + 0.5, d);
    assert x * d < (r as real + 0.5) * d;
    assert y < (r as real + 0.5) * d;
  }

  lemma ScaleStrict(x: real, y: real, t: real)
    requires x < y && t > 0.0
    ensures x * t < y * t
  {
  }

  lemma WpmBound(characterCount: int, durationInSeconds: real, wpm: real)
    requires durationInSeconds != 0.0
    requires wpm == (characterCount as real / 5.0) / (durationInSeconds / 60.0)
    ensures wpm * durationInSeconds == 12.0 * characterCount as real
  {
  }

  /** Worked values: 300 characters in 60 s, 450 in 120 s, 127 in 60 s. */
  lemma WpmExamples()
    ensures CalculateWpm(300, 60.0) == 60
    ensures CalculateWpm(450, 120.0) == 45
    ensures CalculateWpm(127, 60.0) == 25
    ensures CalculateWpm(0, 60.0) == 0 && CalculateWpm(100, 0.0) == 0
  {
    RoundIsUnique(60.0, 60);
    RoundIsUnique(45.0, 45);
    RoundIsUnique(25.4, 25);
  }

  /** calculateAccuracy: a percentage rounded to an integer; zero (not 100) for no characters. */
  function CalculateAccuracy(correctCount: int, totalCount: int): (accuracy: int)
    ensures totalCount == 0 ==> accuracy == 0
    ensures totalCount > 0 ==>
      (accuracy as real - 0.5) * totalCount as real <= 100.0 * correctCount as real < (accuracy as real + 0.5) * totalCount as real
  {
    if totalCount == 0 then 0
    else
      var ratio := correctCount as real / totalCount as real;
      AccuracyScale(correctCount, totalCount, ratio * 100.0);
      if totalCount > 0 then
        RoundingScaled(ratio * 100.0, totalCount as real, 100.0 * correctCount as real);
        Round(ratio * 100.0)
      else Round(ratio * 100.0)
  }

  lemma AccuracyScale(correctCount: int, totalCount: int, accuracy: real)
    requires totalCount != 0
    requires accuracy == (correctCount as real / totalCount as real) * 100.0
    ensures accuracy * totalCount as real == 100.0 * correctCount as real
  {
  }

  /** The accuracy of a count within its total lies in [0, 100], is 100 for all correct and 0 for none. */
  lemma AccuracyRange(correctCount: int, totalCount: int)
    requires 0 <= correctCount <= totalCount
    ensures 0 <= CalculateAccuracy(correctCount, totalCount) <= 100
    ensures totalCount > 0 && correctCount == totalCount ==> CalculateAccuracy(correctCount, totalCount) == 100
    ensures correctCount == 0 ==> CalculateAccuracy(correctCount, totalCount) == 0
  {
    if totalCount > 0 {
      var a := CalculateAccuracy(correctCount, totalCount);
      var t := totalCount as real;
      var c := correctCount as real;
      assert (a as real - 0.5) * t <= 100.0 * c < (a as real + 0.5) * t;
      AtMostWhole(a, c, t);
      AtLeastNone(a, c, t);
      if correctCount == totalCount {
        DivSelf(t);
        RoundIsUnique(c / t * 100.0, 100);
      }
      if correctCount == 0 {
        RoundIsUnique(c / t * 100.0, 0);
      }
    }
  }

  lemma AtMostWhole(a: int, c: real, t: real)
    requires t > 0.0 && c <= t
    requires (a as real - 0.5) * t <= 100.0 * c
    ensures a <= 100
  {
    if a > 100 {
      ScaleLower(a as real - 0.5, 100.5, t);
    }
  }

  lemma AtLeastNone(a: int, c: real, t: real)
    requires t > 0.0 && c >= 0.0
    requires 100.0 * c < (a as real + 0.5) * t
    ensures a >= 0
  {
    if a < 0 {
      ScaleUpper(a as real + 0.5, -0.5, t);
    }
  }

  lemma DivSelf(t: real)
    requires t != 0.0
    ensures t / t == 1.0
  {
  }

  lemma ScaleLower(x: real, y: real, t: real)
    requires x >= y && t > 0.0
    ensures x * t >= y * t
  {
  }

  lemma ScaleUpper(x: real, y: real, t: real)
    requires x <= y && t > 0.0
    ensures x * t <= y * t
  {
  }

  /**
   * calculateTypingSpeed: characters per second rounded to hundredths
   * (an exact rational here, so the result is a whole number of hundredths).
   */
  function CalculateTypingSpeed(characterCount: int, durationInSeconds: real): (speed: real)
    ensures durationInSeconds == 0.0 || characterCount == 0 ==> speed == 0.0
    ensures (speed * 100.0).Floor as real == speed * 100.0
    ensures characterCount != 0 && durationInSeconds > 0.0 ==>
      (speed * 100.0 - 0.5) * durationInSeconds <= 100.0 * characterCount as real < (speed * 100.0 + 0.5) * durationInSeconds
  {
    if durationInSeconds == 0.0 || characterCount == 0 then 0.0
    else
      var perSecond := characterCount as real / durationInSeconds;
      SpeedScale(characterCount, durationInSeconds, perSecond * 100.0);
      if durationInSeconds > 0.0 then
        RoundingScaled(perSecond * 100.0, durationInSeconds, 100.0 * characterCount as real);
        Round(perSecond * 100.0) as real / 100.0
      else Round(perSecond * 100.0) as real / 100.0
  }

  lemma SpeedScale(characterCount: int, durationInSeconds: real, hundredths: real)
    requires durationInSeconds != 0.0
    requires hundredths == (characterCount as real / durationInSeconds) * 100.0
    ensures hundredths * durationInSeconds == 100.0 * characterCount as real
  {
  }

  /** 100 characters in 60 seconds is 1.67 characters per second. */
  lemma TypingSpeedExample()
    ensures CalculateTypingSpeed(100, 60.0) == 1.67
  {
    RoundIsUnique(100.0 / 60.0 * 100.0, 167);
  }
}

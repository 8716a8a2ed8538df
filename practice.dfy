/**
 * The practice page (app/practice/page.tsx): the session state, the loading
 * of a new text, the recording of keystrokes on each change of the input,
 * and the hand-off to the results page.
 */
module Practice {
  import opened JsBuiltins
  import opened Calculator
  import Analyzer

  datatype Difficulty = Beginner | Intermediate | Advanced

  /** The target shown when generating a text failed. */
  const GenerationFailedText: string := "文章の生成に失敗しました。もう一度お試しください。"

  /** The number of positions where the typed text matches the target (the page's "simple" accuracy count). */
  function MatchCount(typed: string, target: string): (n: nat)
    ensures n <= |typed|
    decreases |typed|
  {
    if typed == [] then 0
    else
      var i := |typed| - 1;
      MatchCount(typed[..i], target) + (if i < |target| && typed[i] == target[i] then 1 else 0)
  }

  /** Every typed character matches exactly when the typed text is a prefix of the target. */
  lemma {:induction false} MatchCountFullIffPrefix(typed: string, target: string)
    ensures MatchCount(typed, target) == |typed| <==> StartsWith(target, typed)
    decreases |typed|
  {
    if typed != [] {
      var i := |typed| - 1;
      MatchCountFullIffPrefix(typed[..i], target);
      assert typed == typed[..i] + [typed[i]];
      if i < |target| {
        assert target[..|typed|] == target[..i] + [target[i]];
        assert StartsWith(target, typed) ==> target[..i] == typed[..i] by {
          if StartsWith(target, typed) {
            assert target[..|typed|][..i] == target[..i];
          }
        }
      }
    }
  }

  /** What the page passes to the results page: the keystroke log and the three figures. */
  datatype Handoff = Handoff(keyPresses: seq<Analyzer.KeyPress>, wpm: int, accuracy: int, characterCount: int)

  class PracticeSession {
    var difficulty: Difficulty
    var targetText: string
    var isLoading: bool
    var isTimerActive: bool
    var typedText: string
    var startTime: Option<int>
    var isCompleted: bool
    var wpm: int
    var accuracy: int
    var characterCount: int
    var keyPresses: seq<Analyzer.KeyPress>

    /**
     * The count shown is the typed length, accuracy is a percentage, a running
     * timer has a start time, and every recorded key is one character.
     */
    ghost predicate Valid()
      reads this
    {
      characterCount == |typedText| &&
      0 <= accuracy <= 100 &&
      (isTimerActive ==> startTime.Some?) &&
      forall i :: 0 <= i < |keyPresses| ==> |keyPresses[i].key| == 1
    }

    /** The initial state: beginner, loading, nothing typed, accuracy 100. */
    constructor()
      ensures Valid()
      ensures difficulty == Beginner && targetText == "" && isLoading && !isTimerActive
      ensures typedText == "" && startTime == None && !isCompleted
      ensures wpm == 0 && accuracy == 100 && characterCount == 0 && keyPresses == []
    {
      difficulty := Beginner;
      targetText := "";
      isLoading := true;
      isTimerActive := false;
      typedText := "";
      startTime := None;
      isCompleted := false;
      wpm := 0;
      accuracy := 100;
      characterCount := 0;
      keyPresses := [];
    }

    /** The first, synchronous half of loadNewText: every session figure is reset. */
    method StartLoading()
      modifies this
      ensures Valid()
      ensures isLoading && !isCompleted && typedText == "" && !isTimerActive && startTime == None
      ensures characterCount == 0 && wpm == 0 && accuracy == 100 && keyPresses == []
      ensures difficulty == old(difficulty) && targetText == old(targetText)
    {
      isLoading := true;
      isCompleted := false;
      typedText := "";
      isTimerActive := false;
      startTime := None;
      characterCount := 0;
      wpm := 0;
      accuracy := 100;
      keyPresses := [];
    }

    /** The second half of loadNewText: the generated text, or the failure message when generation threw. */
    method FinishLoading(generated: Option<string>)
      requires Valid()
      modifies this
      ensures Valid()
      ensures targetText == (if generated.Some? then generated.value else GenerationFailedText)
      ensures !isLoading
      ensures typedText == old(typedText) && keyPresses == old(keyPresses) && wpm == old(wpm)
      ensures accuracy == old(accuracy) && characterCount == old(characterCount)
      ensures isTimerActive == old(isTimerActive) && startTime == old(startTime)
      ensures isCompleted == old(isCompleted) && difficulty == old(difficulty)
    {
      targetText := if generated.Some? then generated.value else GenerationFailedText;
      isLoading := false;
    }

    /**
     * handleTypingChange at time now: start the timer on the first character,
     * record the character typed at the previous length, and refresh the
     * figures when a start time was already set.
     */
    method HandleTypingChange(newTypedText: string, isCorrect: bool, now: int)
      requires Valid()
      modifies this
      ensures Valid()
      ensures typedText == newTypedText && characterCount == |newTypedText|
      ensures if !old(isTimerActive) && |newTypedText| == 1
        then isTimerActive && startTime == Some(now)
        else isTimerActive == old(isTimerActive) && startTime == old(startTime)
      ensures var previousLength := |old(typedText)|;
        keyPresses == old(keyPresses) +
          if |newTypedText| > previousLength then
            [Analyzer.KeyPress([newTypedText[previousLength]], now,
               previousLength < |targetText| && newTypedText[previousLength] == targetText[previousLength])]
          else []
      ensures if TruthyNumber(old(startTime)) && |newTypedText| > 0
        then wpm == CalculateWpm(|newTypedText|, (now - old(startTime).value) as real / 1000.0) &&
             accuracy == CalculateAccuracy(MatchCount(newTypedText, targetText), |newTypedText|)
        else wpm == old(wpm) && accuracy == old(accuracy)
      ensures targetText == old(targetText) && difficulty == old(difficulty)
      ensures isLoading == old(isLoading) && isCompleted == old(isCompleted)
    {
      // The setters are batched: every step below reads the state from before the change.
      var previousLength, previousStart := |typedText|, startTime;
      typedText := newTypedText;
      StartTimerOnFirstCharacter(|newTypedText|, now);
      RecordKeyPress(newTypedText, previousLength, now);
      characterCount := |newTypedText|;
      RefreshFigures(newTypedText, previousStart, now);
    }

    /** The timer starts, at now, when the first character arrives while it is stopped. */
    method StartTimerOnFirstCharacter(newLength: nat, now: int)
      modifies this
      ensures if !old(isTimerActive) && newLength == 1
        then isTimerActive && startTime == Some(now)
        else isTimerActive == old(isTimerActive) && startTime == old(startTime)
      ensures typedText == old(typedText) && keyPresses == old(keyPresses) && characterCount == old(characterCount)
      ensures wpm == old(wpm) && accuracy == old(accuracy) && targetText == old(targetText)
      ensures difficulty == old(difficulty) && isLoading == old(isLoading) && isCompleted == old(isCompleted)
    {
      if !isTimerActive && newLength == 1 {
        isTimerActive := true;
        startTime := Some(now);
      }
    }

    /** A text longer than before records the character at the previous length, correct when it matches the target there. */
    method RecordKeyPress(newTypedText: string, previousLength: nat, now: int)
      modifies this
      ensures keyPresses == old(keyPresses) +
        if |newTypedText| > previousLength then
          [Analyzer.KeyPress([newTypedText[previousLength]], now,
             previousLength < |targetText| && newTypedText[previousLength] == targetText[previousLength])]
        else []
      ensures typedText == old(typedText) && isTimerActive == old(isTimerActive) && startTime == old(startTime)
      ensures characterCount == old(characterCount) && wpm == old(wpm) && accuracy == old(accuracy)
      ensures targetText == old(targetText) && difficulty == old(difficulty)
      ensures isLoading == old(isLoading) && isCompleted == old(isCompleted)
    {
      if |newTypedText| > previousLength {
        var newChar := newTypedText[previousLength];
        var matches := previousLength < |targetText| && newChar == targetText[previousLength];
        keyPresses := keyPresses + [Analyzer.KeyPress([newChar], now, matches)];
      }
    }

    /** With a start time from before the change and a non-empty text, wpm and accuracy are recomputed. */
    method RefreshFigures(newTypedText: string, previousStart: Option<int>, now: int)
      modifies this
      ensures if TruthyNumber(previousStart) && |newTypedText| > 0
        then wpm == CalculateWpm(|newTypedText|, (now - previousStart.value) as real / 1000.0) &&
             accuracy == CalculateAccuracy(MatchCount(newTypedText, targetText), |newTypedText|) &&
             0 <= accuracy <= 100
        else wpm == old(wpm) && accuracy == old(accuracy)
      ensures typedText == old(typedText) && isTimerActive == old(isTimerActive) && startTime == old(startTime)
      ensures keyPresses == old(keyPresses) && characterCount == old(characterCount)
      ensures targetText == old(targetText) && difficulty == old(difficulty)
      ensures isLoading == old(isLoading) && isCompleted == old(isCompleted)
    {
      if TruthyNumber(previousStart) && |newTypedText| > 0 {
        var elapsedSeconds := (now - previousStart.value) as real / 1000.0;
        wpm := CalculateWpm(|newTypedText|, elapsedSeconds);
        var correctChars := MatchCount(newTypedText, targetText);
        AccuracyRange(correctChars, |newTypedText|);
        accuracy := CalculateAccuracy(correctChars, |newTypedText|);
      }
    }

    /** handleDifficultyChange: only the difficulty changes (the page then reloads a text). */
    method SetDifficulty(newDifficulty: Difficulty)
      requires Valid()
      modifies this
      ensures Valid()
      ensures difficulty == newDifficulty
      ensures targetText == old(targetText) && typedText == old(typedText) && keyPresses == old(keyPresses)
      ensures wpm == old(wpm) && accuracy == old(accuracy) && characterCount == old(characterCount)
      ensures isTimerActive == old(isTimerActive) && startTime == old(startTime)
      ensures isLoading == old(isLoading) && isCompleted == old(isCompleted)
    {
      difficulty := newDifficulty;
    }

    /**
     * handleTimerComplete, and the body of handleTypingComplete: stop, mark
     * completed, hand the figures of the current state on.
     */
    method Complete() returns (handoff: Handoff)
      requires Valid()
      modifies this
      ensures Valid()
      ensures !isTimerActive && isCompleted
      ensures handoff == Handoff(old(keyPresses), old(wpm), old(accuracy), old(characterCount))
      ensures typedText == old(typedText) && keyPresses == old(keyPresses) && targetText == old(targetText)
      ensures wpm == old(wpm) && accuracy == old(accuracy) && characterCount == old(characterCount)
      ensures startTime == old(startTime) && isLoading == old(isLoading) && difficulty == old(difficulty)
    {
      isTimerActive := false;
      isCompleted := true;
      handoff := Handoff(keyPresses, wpm, accuracy, characterCount);
    }

    /**
     * The change that completes the text. The input calls onTypingChange and
     * then onTypingComplete in one event, and handleTypingComplete is the
     * closure of the render before that event: the change is applied, but the
     * hand-off carries the log and the figures from before the keystroke.
     */
    method CompletingChange(newTypedText: string, isCorrect: bool, now: int) returns (handoff: Handoff)
      requires Valid()
      modifies this
      ensures Valid()
      ensures handoff == Handoff(old(keyPresses), old(wpm), old(accuracy), old(characterCount))
      ensures handoff.characterCount == |old(typedText)|
      ensures !isTimerActive && isCompleted
      ensures typedText == newTypedText && characterCount == |newTypedText|
      ensures |newTypedText| > |old(typedText)| ==>
        |keyPresses| == |handoff.keyPresses| + 1 && keyPresses[..|handoff.keyPresses|] == handoff.keyPresses &&
        keyPresses[|handoff.keyPresses|].key == [newTypedText[|old(typedText)|]]
      ensures targetText == old(targetText) && difficulty == old(difficulty) && isLoading == old(isLoading)
    {
      handoff := Handoff(keyPresses, wpm, accuracy, characterCount);
      HandleTypingChange(newTypedText, isCorrect, now);
      isTimerActive := false;
      isCompleted := true;
    }
  }

  /**
   * Typing a text character by character, without corrections, logs exactly
   * one keystroke per character: the log's keys spell the typed text.
   */
  lemma {:induction false} AppendOnlyTypingLogsEachCharacter(log: seq<Analyzer.KeyPress>, typed: string, c: char, now: int, target: string)
    requires |log| == |typed|
    requires forall i :: 0 <= i < |log| ==> log[i].key == [typed[i]]
    ensures var log' := log + [Analyzer.KeyPress([(typed + [c])[|typed|]], now,
              |typed| < |target| && (typed + [c])[|typed|] == target[|typed|])];
      |log'| == |typed + [c]| &&
      (forall i :: 0 <= i < |log'| ==> log'[i].key == [(typed + [c])[i]]) &&
      log'[|typed|].isCorrect == (|typed| < |target| && c == target[|typed|])
  {
    var t := typed + [c];
    assert t[|typed|] == c;
    forall i | 0 <= i < |typed| ensures t[i] == typed[i] {
    }
  }
}

/**
 * The typing input (components/TypingArea.tsx): key codes normalised for the
 * keystroke log, input longer than the target refused, completion detected,
 * and each target character shown as untyped, correct or incorrect.
 */
module TypingInput {
  import opened JsBuiltins
  import opened Validator

  /** normalizeKeyCode: the character a KeyboardEvent.code stands for, "Backspace", or nothing. */
  function NormalizeKeyCode(code: string): (r: Option<string>)
    ensures StartsWith(code, "Key") ==> r == Some(Lower(code[3..]))
    ensures !StartsWith(code, "Key") && StartsWith(code, "Digit") ==> r == Some(code[5..])
    ensures !StartsWith(code, "Key") && !StartsWith(code, "Digit") ==>
      (r.Some? <==> SymbolFor(code).Some? || code == "Backspace")
    ensures !StartsWith(code, "Key") && !StartsWith(code, "Digit") && r.Some? ==>
      (|r.value| == 1 || r.value == "Backspace")
  {
    if StartsWith(code, "Key") then Some(Lower(code[3..]))
    else if StartsWith(code, "Digit") then Some(code[5..])
    else
      var symbol := SymbolFor(code);
      if symbol.Some? then symbol
      else if code == "Backspace" then Some("Backspace")
      else None
  }

  /** The symbol table of normalizeKeyCode; every value is one character. */
  function SymbolFor(code: string): (r: Option<string>)
    ensures r.Some? ==> |r.value| == 1
  {
    match code
    case "Space" => Some(" ")
    case "Comma" => Some(",")
    case "Period" => Some(".")
    case "Slash" => Some("/")
    case "Semicolon" => Some(";")
    case "Quote" => Some("'")
    case "BracketLeft" => Some("[")
    case "BracketRight" => Some("]")
    case "Backslash" => Some("\\")
    case "Minus" => Some("-")
    case "Equal" => Some("=")
    case _ => None
  }

  /** The modifier and control codes handleKeyDown drops before normalising. */
  const IgnoredCodes: set<string> := {
    "ShiftLeft", "ShiftRight", "ControlLeft", "ControlRight", "AltLeft", "AltRight",
    "MetaLeft", "MetaRight", "CapsLock", "Tab", "Escape"}

  /** handleKeyDown: the key reported to onKeyPress, if any (the timestamp is the caller's clock). */
  function KeyDownReport(code: string): Option<string> {
    if code in IgnoredCodes then None
    else
      var normalizedKey := NormalizeKeyCode(code);
      if normalizedKey.None? || normalizedKey.value == "" then None else normalizedKey
  }

  /** A code whose first character is neither 'K' nor 'D' goes to the symbol table, then "Backspace". */
  lemma NoPrefix(code: string)
    requires |code| > 0 && code[0] != 'K' && code[0] != 'D'
    ensures !StartsWith(code, "Key") && !StartsWith(code, "Digit")
    ensures NormalizeKeyCode(code) ==
      if SymbolFor(code).Some? then SymbolFor(code) else if code == "Backspace" then Some("Backspace") else None
  {
  }

  /** Each symbol code gives its character. */
  lemma SymbolCodes()
    ensures NormalizeKeyCode("Space") == Some(" ") && NormalizeKeyCode("Comma") == Some(",")
    ensures NormalizeKeyCode("Period") == Some(".") && NormalizeKeyCode("Slash") == Some("/")
    ensures NormalizeKeyCode("Semicolon") == Some(";") && NormalizeKeyCode("Quote") == Some("'")
    ensures NormalizeKeyCode("BracketLeft") == Some("[") && NormalizeKeyCode("BracketRight") == Some("]")
    ensures NormalizeKeyCode("Backslash") == Some("\\") && NormalizeKeyCode("Minus") == Some("-")
    ensures NormalizeKeyCode("Equal") == Some("=")
  {
    PunctuationCodes();
    BracketCodes();
    SignCodes();
  }

  lemma PunctuationCodes()
    ensures NormalizeKeyCode("Space") == Some(" ") && NormalizeKeyCode("Comma") == Some(",")
    ensures NormalizeKeyCode("Period") == Some(".") && NormalizeKeyCode("Slash") == Some("/")
  {
    NoPrefix("Space"); NoPrefix("Comma"); NoPrefix("Period"); NoPrefix("Slash");
  }

  lemma BracketCodes()
    ensures NormalizeKeyCode("Semicolon") == Some(";") && NormalizeKeyCode("Quote") == Some("'")
    ensures NormalizeKeyCode("BracketLeft") == Some("[") && NormalizeKeyCode("BracketRight") == Some("]")
  {
    NoPrefix("Semicolon"); NoPrefix("Quote"); NoPrefix("BracketLeft"); NoPrefix("BracketRight");
  }

  lemma SignCodes()
    ensures NormalizeKeyCode("Backslash") == Some("\\") && NormalizeKeyCode("Minus") == Some("-")
    ensures NormalizeKeyCode("Equal") == Some("=")
  {
    NoPrefix("Backslash"); NoPrefix("Minus"); NoPrefix("Equal");
  }

  /** "Backspace" gives itself, and a code in none of the tables, such as "Enter", gives nothing. */
  lemma BackspaceAndUnknownCodes()
    ensures NormalizeKeyCode("Backspace") == Some("Backspace")
    ensures NormalizeKeyCode("Enter") == None
  {
    NoPrefix("Backspace"); NoPrefix("Enter");
  }

  /** None of the control codes handleKeyDown drops would have given a key anyway. */
  lemma IgnoredCodeNormalisesToNothing(code: string)
    requires code in IgnoredCodes
    ensures NormalizeKeyCode(code) == None
  {
    NoPrefix(code);
  }

  /**
   * So the ignore list never changes what is reported: a key is reported
   * exactly when its code normalises to a non-empty string, and it is that string.
   */
  lemma ReportIsNonEmptyNormalisation(code: string)
    ensures KeyDownReport(code) ==
      if NormalizeKeyCode(code).Some? && NormalizeKeyCode(code).value != "" then NormalizeKeyCode(code) else None
  {
    if code in IgnoredCodes {
      IgnoredCodeNormalisesToNothing(code);
    }
  }

  /** What handleKeyDown reports for letters, digits, symbols and Backspace. */
  lemma ReportedKeys(c: char)
    ensures 'A' <= c <= 'Z' ==> KeyDownReport("Key" + [c]) == Some([LowerChar(c)])
    ensures '0' <= c <= '9' ==> KeyDownReport("Digit" + [c]) == Some([c])
    ensures KeyDownReport("Space") == Some(" ") && KeyDownReport("Slash") == Some("/")
    ensures KeyDownReport("Backspace") == Some("Backspace")
    ensures KeyDownReport("ShiftLeft") == None && KeyDownReport("Enter") == None
  {
    LetterAndDigitCodes(c);
    PunctuationCodes();
    BackspaceAndUnknownCodes();
    ReportIsNonEmptyNormalisation("Key" + [c]);
    ReportIsNonEmptyNormalisation("Digit" + [c]);
    ReportIsNonEmptyNormalisation("Space");
    ReportIsNonEmptyNormalisation("Slash");
    ReportIsNonEmptyNormalisation("Backspace");
    ReportIsNonEmptyNormalisation("Enter");
  }

  /** A letter key gives its lower-case letter; a digit key gives its digit. */
  lemma LetterAndDigitCodes(c: char)
    ensures 'A' <= c <= 'Z' ==> NormalizeKeyCode("Key" + [c]) == Some([LowerChar(c)])
    ensures '0' <= c <= '9' ==> NormalizeKeyCode("Digit" + [c]) == Some([c])
  {
    assert ("Key" + [c])[..3] == "Key" && ("Key" + [c])[3..] == [c];
    assert Lower([c]) == [LowerChar(c)];
    assert ("Digit" + [c])[..5] == "Digit" && ("Digit" + [c])[5..] == [c];
    if '0' <= c <= '9' {
      assert ("Digit" + [c])[..3] != "Key" by {
        assert ("Digit" + [c])[0] == 'D';
      }
    }
  }

  /** The bare prefixes normalise to the empty string, so handleKeyDown reports nothing for them. */
  lemma BareKeyPrefixDropped()
    ensures NormalizeKeyCode("Key") == Some("") && KeyDownReport("Key") == None
  {
    assert StartsWith("Key", "Key") && "Key"[3..] == "";
  }

  lemma BareDigitPrefixDropped()
    ensures NormalizeKeyCode("Digit") == Some("") && KeyDownReport("Digit") == None
  {
    assert !StartsWith("Digit", "Key") by {
      assert "Digit"[..3][0] == 'D';
    }
    assert StartsWith("Digit", "Digit") && "Digit"[5..] == "";
    assert "Digit" !in IgnoredCodes;
  }

  /** What handleInputChange did with a new value. */
  datatype InputOutcome =
    | Rejected
      /** onTypingChange(newValue, allCorrect) fired; onTypingComplete fired when completed. */
    | Changed(newValue: string, allCorrect: bool, completed: bool)

  /** The status of one target character on screen. */
  datatype CharStatus = Untyped | Correct | Incorrect

  /** The status of each target character given the comparisons made so far. */
  function Statuses(targetText: string, typedText: string): seq<CharStatus> {
    var results := Validation(targetText, typedText);
    seq(|targetText|, i requires 0 <= i < |targetText| =>
      if i < |results| then (if results[i].isCorrect then Correct else Incorrect) else Untyped)
  }

  /** A character is untyped past the typed text, and otherwise correct exactly when it was typed right. */
  lemma StatusesSpec(targetText: string, typedText: string)
    requires |typedText| <= |targetText|
    ensures |Statuses(targetText, typedText)| == |targetText|
    ensures forall i :: 0 <= i < |targetText| ==>
      (Statuses(targetText, typedText)[i] == Untyped <==> i >= |typedText|)
    ensures forall i :: 0 <= i < |typedText| ==>
      (Statuses(targetText, typedText)[i] == Correct <==> typedText[i] == targetText[i])
  {
    ValidationShape(targetText, typedText);
    forall i | 0 <= i < |typedText| ensures [targetText[i]] == [typedText[i]] <==> typedText[i] == targetText[i] {
      assert [targetText[i]][0] == targetText[i];
      assert [typedText[i]][0] == typedText[i];
    }
  }

  class TypingArea {
    var targetText: string
    var typedText: string

    /** The input never holds more characters than the target. */
    ghost predicate Valid()
      reads this
    {
      |typedText| <= |targetText|
    }

    constructor(targetText: string)
      ensures Valid()
      ensures this.targetText == targetText && typedText == ""
    {
      this.targetText := targetText;
      typedText := "";
    }

    /** A new target prop: the effect clears the input when the target changed. */
    method SetTargetText(newTarget: string)
      requires Valid()
      modifies this
      ensures Valid()
      ensures targetText == newTarget
      ensures typedText == if newTarget != old(targetText) then "" else old(typedText)
    {
      if newTarget != targetText {
        typedText := "";
      }
      targetText := newTarget;
    }

    /** handleInputChange: refuse overlong input, otherwise take it, validate it and report. */
    method HandleInputChange(newValue: string) returns (outcome: InputOutcome)
      requires Valid()
      modifies this
      ensures Valid()
      ensures targetText == old(targetText)
      ensures outcome.Rejected? <==> |newValue| > |targetText|
      ensures outcome.Rejected? ==> typedText == old(typedText)
      ensures outcome.Changed? ==> typedText == newValue && outcome.newValue == newValue
      ensures outcome.Changed? ==>
        (outcome.allCorrect <==> newValue != "" && newValue == targetText[..|newValue|])
      ensures outcome.Changed? ==> (outcome.completed <==> newValue == targetText && targetText != "")
    {
      if |newValue| > |targetText| {
        return Rejected;
      }
      typedText := newValue;
      var results := ValidateInput(targetText, newValue);
      var allCorrect := |results| > 0 && AllResultsCorrect(results);
      if newValue != "" {
        AllCorrectIffPrefix(targetText, newValue);
      }
      var completed := |newValue| == |targetText| && allCorrect;
      outcome := Changed(newValue, allCorrect, completed);
    }

    /** renderedCharacters: the status shown under each target character. */
    function RenderedStatuses(): (statuses: seq<CharStatus>)
      reads this
      ensures |statuses| == |targetText|
    {
      Statuses(targetText, typedText)
    }
  }
}

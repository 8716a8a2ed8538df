/**
 * Character-by-character validation of typed text against the target text
 * (lib/typing/validator.ts).
 */
module Validator {

  /** One comparison: the expected and the typed character (as one-character strings). */
  datatype CharacterResult = CharacterResult(expected: string, actual: string, isCorrect: bool)

  /** compareCharacters: keeps both inputs; correct exactly when they are equal (case-sensitive). */
  function CompareCharacters(expected: string, actual: string): (r: CharacterResult)
    ensures r.expected == expected && r.actual == actual
    ensures r.isCorrect <==> expected == actual
  {
    CharacterResult(expected, actual, expected == actual)
  }

  function Min(a: int, b: int): int {
    if a < b then a else b
  }

  /** The number of positions validateInput compares: none when either text is empty. */
  function ComparedLength(target: string, typed: string): (n: nat)
    ensures n <= |target| && n <= |typed|
  {
    if target == [] || typed == [] then 0 else Min(|target|, |typed|)
  }

  /** The result of validateInput, as a value. */
  function Validation(target: string, typed: string): (results: seq<CharacterResult>)
    ensures |results| == ComparedLength(target, typed)
  {
    var n := ComparedLength(target, typed);
    seq(n, i requires 0 <= i < n => CompareCharacters([target[i]], [typed[i]]))
  }

  /** validateInput: the loop pushing one comparison per position. */
  method ValidateInput(targetText: string, typedText: string) returns (results: seq<CharacterResult>)
    ensures results == Validation(targetText, typedText)
  {
    if targetText == [] || typedText == [] {
      return [];
    }
    var length := Min(|targetText|, |typedText|);
    results := [];
    for i := 0 to length
      invariant |results| == i
      invariant forall j :: 0 <= j < i ==> results[j] == CompareCharacters([targetText[j]], [typedText[j]])
    {
      results := results + [CompareCharacters([targetText[i]], [typedText[i]])];
    }
  }

  predicate AllResultsCorrect(results: seq<CharacterResult>) {
    forall i :: 0 <= i < |results| ==> results[i].isCorrect
  }

  /** Empty inputs give no comparisons; otherwise one per position of the shorter text. */
  lemma ValidationShape(target: string, typed: string)
    ensures target == [] || typed == [] ==> Validation(target, typed) == []
    ensures target != [] && typed != [] ==>
      |Validation(target, typed)| == Min(|target|, |typed|)
    ensures forall i :: 0 <= i < |Validation(target, typed)| ==>
      Validation(target, typed)[i] == CompareCharacters([target[i]], [typed[i]])
  {
  }

  /** Characters typed beyond the end of the target are never inspected. */
  lemma {:induction false} ValidationIgnoresOverflow(target: string, typed: string, extra: string)
    requires |typed| >= |target|
    ensures Validation(target, typed + extra) == Validation(target, typed)
  {
    var a, b := Validation(target, typed + extra), Validation(target, typed);
    assert |a| == |b|;
    forall i | 0 <= i < |a| ensures a[i] == b[i] {
      assert (typed + extra)[i] == typed[i];
    }
  }

  /** For a non-empty input no longer than the target: all correct iff it is a prefix of the target. */
  lemma {:induction false} AllCorrectIffPrefix(target: string, typed: string)
    requires 0 < |typed| <= |target|
    ensures AllResultsCorrect(Validation(target, typed)) <==> typed == target[..|typed|]
  {
    var r := Validation(target, typed);
    assert |r| == |typed|;
    if AllResultsCorrect(r) {
      forall i | 0 <= i < |typed| ensures typed[i] == target[i] {
        assert r[i].isCorrect;
        assert [target[i]] == [typed[i]];
        assert [target[i]][0] == target[i];
      }
    }
  }
}

/**
 * The server actions (app/actions/ai.ts) without the network: the prompt for
 * a practice text, the rule-based advice, and what each action does when no
 * API key is available. A number that may be NaN is an Option<int> whose
 * None is NaN, so every comparison with it is false.
 */
module Ai {
  import opened JsBuiltins

  /** basePrompts: the length and style asked for at each known difficulty. */
  function BasePrompt(difficulty: string): Option<string> {
    match difficulty
    case "beginner" => Some(BeginnerPrompt)
    case "intermediate" => Some(IntermediatePrompt)
    case "advanced" => Some(AdvancedPrompt)
    case _ => None
  }

  const BeginnerPrompt: string := "日本語の短文（20-30文字）を生成してください。" + "常用漢字のみを使用し、シンプルで読みやすい文章にしてください。"
  const IntermediatePrompt: string := "日本語の中文（40-60文字）を生成してください。" + "記号（、。！？）を含む自然な文章にしてください。"
  const AdvancedPrompt: string := "日本語の長文（80-120文字）を生成してください。" + "複雑な表現や記号を含む、読み応えのある文章にしてください。"

  /** typeModifiers: the kind of content asked for at each known text type. */
  function TypeModifier(textType: string): Option<string> {
    match textType
    case "random" => Some(RandomModifier)
    case "sentence" => Some(SentenceModifier)
    case "programming" => Some(ProgrammingModifier)
    case _ => None
  }

  const RandomModifier: string := "ランダムな文字列を含む"
  const SentenceModifier: string := "日常的な文章や名言を"
  const ProgrammingModifier: string := "プログラミング用語やコードスニペットを含む"

  /** The instruction every prompt ends with. */
  const PromptSuffix: string := "\n\n重要: 生成する文章のみを返してください。説明や追加のコメントは不要です。"

  /** basePrompts[difficulty] || basePrompts.beginner. */
  function BaseOrBeginner(difficulty: string): string {
    var base := BasePrompt(difficulty);
    if Truthy(base) then base.value else BasePrompt("beginner").value
  }

  /** typeModifiers[textType] || typeModifiers.sentence. */
  function ModifierOrSentence(textType: string): string {
    var modifier := TypeModifier(textType);
    if Truthy(modifier) then modifier.value else TypeModifier("sentence").value
  }

  /** generatePrompt: the modifier, the base prompt, then the fixed instruction. */
  function GeneratePrompt(difficulty: string, textType: string): string {
    ModifierOrSentence(textType) + BaseOrBeginner(difficulty) + PromptSuffix
  }

  predicate KnownDifficulty(difficulty: string) {
    difficulty == "beginner" || difficulty == "intermediate" || difficulty == "advanced"
  }

  predicate KnownTextType(textType: string) {
    textType == "random" || textType == "sentence" || textType == "programming"
  }

  /** An unknown difficulty is asked for as a beginner text, an unknown type as a sentence. */
  lemma PromptFallbacks(difficulty: string, textType: string)
    ensures !KnownDifficulty(difficulty) ==> GeneratePrompt(difficulty, textType) == GeneratePrompt("beginner", textType)
    ensures !KnownTextType(textType) ==> GeneratePrompt(difficulty, textType) == GeneratePrompt(difficulty, "sentence")
    ensures KnownDifficulty(difficulty) <==> BasePrompt(difficulty).Some?
    ensures KnownTextType(textType) <==> TypeModifier(textType).Some?
  {
  }

  /**
   * Reading the choice back out of a prompt: the first character tells the
   * text type, and the fifth character of the base prompt (short, middle or
   * long) tells the difficulty.
   */
  function ReadChoice(prompt: string): (string, string)
    requires |prompt| > 25
  {
    var textType := if prompt[0] == 'ラ' then "random" else if prompt[0] == '日' then "sentence" else "programming";
    var offset := |TypeModifier(textType).value| + 4;
    var difficulty := if prompt[offset] == '短' then "beginner" else if prompt[offset] == '中' then "intermediate" else "advanced";
    (difficulty, textType)
  }

  /** Different known choices give different prompts: the prompt determines both. */
  lemma PromptRoundTrip(difficulty: string, textType: string)
    requires KnownDifficulty(difficulty) && KnownTextType(textType)
    ensures |GeneratePrompt(difficulty, textType)| > 25
    ensures ReadChoice(GeneratePrompt(difficulty, textType)) == (difficulty, textType)
  {
    PromptLeads();
    var modifier := TypeModifier(textType).value;
    var base := BasePrompt(difficulty).value;
    PromptChars(modifier, base, PromptSuffix);
  }

  /** Two known choices give the same prompt only when they are the same choice. */
  lemma PromptInjective(d1: string, t1: string, d2: string, t2: string)
    requires KnownDifficulty(d1) && KnownTextType(t1) && KnownDifficulty(d2) && KnownTextType(t2)
    requires GeneratePrompt(d1, t1) == GeneratePrompt(d2, t2)
    ensures d1 == d2 && t1 == t2
  {
    PromptRoundTrip(d1, t1);
    PromptRoundTrip(d2, t2);
  }

  /** The first character of a prompt is the modifier's, and the base prompt starts right after the modifier. */
  lemma PromptChars(modifier: string, base: string, suffix: string)
    requires |modifier| > 0 && |base| > 4
    ensures (modifier + base + suffix)[0] == modifier[0]
    ensures (modifier + base + suffix)[|modifier| + 4] == base[4]
  {
  }

  /** The characters that tell the choices apart. */
  lemma PromptLeads()
    ensures RandomModifier[0] == 'ラ' && |RandomModifier| == 11
    ensures SentenceModifier[0] == '日' && |SentenceModifier| == 10
    ensures ProgrammingModifier[0] == 'プ' && |ProgrammingModifier| == 21
    ensures BeginnerPrompt[4] == '短' && |BeginnerPrompt| > 25
    ensures IntermediatePrompt[4] == '中' && |IntermediatePrompt| > 25
    ensures AdvancedPrompt[4] == '長' && |AdvancedPrompt| > 25
  {
  }

  /** fallbackTexts: the canned practice texts at each known difficulty. */
  function FallbackTexts(difficulty: string): Option<seq<string>> {
    match difficulty
    case "beginner" => Some(BeginnerTexts)
    case "intermediate" => Some(IntermediateTexts)
    case "advanced" => Some(AdvancedTexts)
    case _ => None
  }

  const BeginnerTexts: seq<string> := [
    "おはようございます",
    "こんにちは、元気ですか",
    "今日はいい天気ですね",
    "ありがとうございます",
    "お疲れ様でした"]

  const IntermediateTexts: seq<string> := [
    "急がば回れ、という言葉があります。焦らず丁寧に進めましょう。",
    "プログラミングは創造性と論理性の融合です。",
    "継続は力なり。毎日少しずつ練習することが大切です。"]

  const AdvancedTexts: seq<string> := [
    "タイピングスキルの向上には、正確性とスピードのバランスが重要です。" +
    "焦らず、一文字一文字を丁寧に入力することで、自然とスピードも向上していきます。",
    "プログラミングにおいて、コードの可読性は非常に重要な要素です。" +
    "適切な命名規則、コメント、そして一貫したスタイルを心がけることで、保守性の高いコードを書くことができます。"]

  /** None of the canned texts is empty. */
  lemma CannedTextsNonEmpty()
    ensures forall text :: text in BeginnerTexts ==> |text| > 0
    ensures forall text :: text in IntermediateTexts ==> |text| > 0
    ensures forall text :: text in AdvancedTexts ==> |text| > 0
  {
  }

  /** fallbackTexts[difficulty] || fallbackTexts.beginner. */
  function FallbackList(difficulty: string): (texts: seq<string>)
    ensures |texts| > 0
  {
    var texts := FallbackTexts(difficulty);
    if texts.Some? then texts.value else BeginnerTexts
  }

  /** Exactly the three difficulties have canned texts, and none of those texts is empty. */
  lemma FallbackTextsShape(difficulty: string)
    ensures FallbackTexts(difficulty).Some? <==> KnownDifficulty(difficulty)
    ensures FallbackTexts(difficulty).Some? ==> FallbackList(difficulty) == FallbackTexts(difficulty).value
    ensures forall text :: text in FallbackList(difficulty) ==> |text| > 0
  {
    CannedTextsNonEmpty();
  }

  /** Math.floor(random * n): for a draw in [0, 1), an index below n. */
  function RandomIndex(random: real, n: nat): (i: nat)
    requires 0.0 <= random < 1.0 && n > 0
    ensures i < n
  {
    assert random * n as real < n as real by {
      assert (1.0 - random) * n as real > 0.0;
    }
    (random * n as real).Floor
  }

  /** The canned text picked by a draw from Math.random(). */
  function PickFallbackText(difficulty: string, random: real): (text: string)
    requires 0.0 <= random < 1.0
    ensures text in FallbackList(difficulty)
  {
    var texts := FallbackList(difficulty);
    texts[RandomIndex(random, |texts|)]
  }

  /** apiKey || process.env.GEMINI_API_KEY: the caller's key when truthy, else the environment's. */
  function EffectiveApiKey(apiKey: Option<string>, envKey: Option<string>): Option<string> {
    if Truthy(apiKey) then apiKey else envKey
  }

  /**
   * generateTypingText. The model's answer is a parameter: None when the
   * request throws, otherwise the answer already trimmed and with its line
   * breaks removed; `random` is the draw from Math.random().
   */
  function GenerateTypingText(difficulty: string, textType: string, apiKey: Option<string>, envKey: Option<string>,
                              modelReply: Option<string>, random: real): (text: string)
    requires 0.0 <= random < 1.0
    ensures !Truthy(EffectiveApiKey(apiKey, envKey)) ==> text in FallbackList(difficulty)
    ensures Truthy(EffectiveApiKey(apiKey, envKey)) && Truthy(modelReply) ==> text == modelReply.value
    ensures Truthy(EffectiveApiKey(apiKey, envKey)) && modelReply == Some("") && KnownDifficulty(difficulty) ==>
      text == FallbackList(difficulty)[0]
    ensures Truthy(EffectiveApiKey(apiKey, envKey)) && !Truthy(modelReply) ==> text in FallbackList(difficulty)
    ensures |text| > 0
  {
    FallbackTextsShape(difficulty);
    var effectiveApiKey := EffectiveApiKey(apiKey, envKey);
    if !Truthy(effectiveApiKey) then PickFallbackText(difficulty, random)
    else if modelReply.None? then PickFallbackText(difficulty, random)
    else if Truthy(modelReply) then modelReply.value
    else
      // fallbackTexts[difficulty][0]: for an unknown difficulty the lookup is
      // undefined, indexing it throws, and the catch block picks at random.
      var texts := FallbackTexts(difficulty);
      if texts.Some? then texts.value[0] else PickFallbackText(difficulty, random)
  }

  /** Without a key, an unknown difficulty is served from the beginner texts. */
  lemma CannedTextFallsBackToBeginner(difficulty: string)
    requires !KnownDifficulty(difficulty)
    ensures FallbackList(difficulty) == FallbackList("beginner")
  {
  }

  /** The four speed paragraphs, slowest band first. */
  const SpeedTexts: seq<string> := [
    "タイピング速度を上げるには、まず正確性を重視しましょう。" + "スピードは自然とついてきます。",
    "良いペースです。" + "キーボードを見ずにタイピングする練習を続けましょう。",
    "かなり速いタイピングです。" + "次は正確性を100%に近づけることを目指しましょう。",
    "素晴らしいタイピング速度です！" + "このペースを維持しながら、さらに正確性を高めていきましょう。"]

  /** The three accuracy paragraphs, each opening with a blank line, least accurate band first. */
  const AccuracyTexts: seq<string> := [
    "\n\n正確性を向上させるため、" + "急がず一文字一文字を確実に入力することを心がけてください。",
    "\n\n正確性は良好です。" + "ミスを減らすため、特定のキーパターンに注意を払いましょう。",
    "\n\n非常に高い正確性です！" + "この調子で練習を続けてください。"]

  /** The characters that tell the paragraphs of one kind apart. */
  lemma ParagraphLeads()
    ensures |SpeedTexts| == 4 && forall k :: 0 <= k < 4 ==> |SpeedTexts[k]| > 0
    ensures SpeedTexts[0][0] == 'タ' && SpeedTexts[1][0] == '良' && SpeedTexts[2][0] == 'か' && SpeedTexts[3][0] == '素'
    ensures |AccuracyTexts| == 3 && forall k :: 0 <= k < 3 ==> |AccuracyTexts[k]| > 5
    ensures AccuracyTexts[0][5] == 'を' && AccuracyTexts[1][5] == 'は' && AccuracyTexts[2][2] == '非'
    ensures AccuracyTexts[0][2] == '正' && AccuracyTexts[1][2] == '正'
  {
  }

  /** A JavaScript `<` against a number that may be NaN. */
  predicate Below(n: Option<int>, bound: int) {
    n.Some? && n.value < bound
  }

  /** The wpm band: under 20, under 40, under 60, otherwise (NaN included). */
  function SpeedBand(wpm: Option<int>): (band: nat)
    ensures band < |SpeedTexts|
    ensures band == 0 <==> wpm.Some? && wpm.value < 20
    ensures band == 1 <==> wpm.Some? && 20 <= wpm.value < 40
    ensures band == 2 <==> wpm.Some? && 40 <= wpm.value < 60
    ensures band == 3 <==> wpm.None? || wpm.value >= 60
  {
    if Below(wpm, 20) then 0 else if Below(wpm, 40) then 1 else if Below(wpm, 60) then 2 else 3
  }

  /** The accuracy band: under 80, under 95, otherwise (NaN included). */
  function AccuracyBand(accuracy: Option<int>): (band: nat)
    ensures band < |AccuracyTexts|
    ensures band == 0 <==> accuracy.Some? && accuracy.value < 80
    ensures band == 1 <==> accuracy.Some? && 80 <= accuracy.value < 95
    ensures band == 2 <==> accuracy.None? || accuracy.value >= 95
  {
    if Below(accuracy, 80) then 0 else if Below(accuracy, 95) then 1 else 2
  }

  /** The weak-key paragraph: present for a non-empty list, naming its first three keys. */
  function WeakKeyParagraph(weakKeys: seq<string>): string {
    if |weakKeys| > 0 then "\n\n苦手なキー（" + Join(SliceTo(weakKeys, 3), ", ") + "）は、単独で練習することで改善できます。"
    else ""
  }

  /** The advice generateFallbackAdvice builds. */
  function FallbackAdvice(wpm: Option<int>, accuracy: Option<int>, weakKeys: seq<string>): string {
    SpeedTexts[SpeedBand(wpm)] + AccuracyTexts[AccuracyBand(accuracy)] + WeakKeyParagraph(weakKeys)
  }

  /** generateFallbackAdvice: the advice grows by one speed paragraph, one accuracy paragraph, and the weak keys if any. */
  method GenerateFallbackAdvice(wpm: Option<int>, accuracy: Option<int>, weakKeys: seq<string>) returns (advice: string)
    ensures advice == FallbackAdvice(wpm, accuracy, weakKeys)
  {
    advice := "";

    if Below(wpm, 20) {
      advice := advice + SpeedTexts[0];
    } else if Below(wpm, 40) {
      advice := advice + SpeedTexts[1];
    } else if Below(wpm, 60) {
      advice := advice + SpeedTexts[2];
    } else {
      advice := advice + SpeedTexts[3];
    }
    assert advice == SpeedTexts[SpeedBand(wpm)];

    if Below(accuracy, 80) {
      advice := advice + AccuracyTexts[0];
    } else if Below(accuracy, 95) {
      advice := advice + AccuracyTexts[1];
    } else {
      advice := advice + AccuracyTexts[2];
    }
    assert advice == SpeedTexts[SpeedBand(wpm)] + AccuracyTexts[AccuracyBand(accuracy)];

    if |weakKeys| > 0 {
      advice := advice + ("\n\n苦手なキー（" + Join(SliceTo(weakKeys, 3), ", ") + "）は、単独で練習することで改善できます。");
    }
  }

  /** A text opens with its own first paragraph, and not with one that differs from it at some position. */
  lemma {:induction false} OpensWith(chosen: string, middle: string, rest: string, other: string, k: nat)
    requires k < |chosen| && k < |other|
    ensures StartsWith(chosen + middle + rest, chosen)
    ensures chosen[k] != other[k] ==> !StartsWith(chosen + middle + rest, other)
  {
    var text := chosen + middle + rest;
    assert text[..|chosen|] == chosen;
    if |other| <= |text| {
      assert text[..|other|][k] == text[k] == chosen[k];
    }
  }

  /** Dropping the first paragraph leaves the other two. */
  lemma AfterFirst(first: string, second: string, third: string)
    ensures (first + second + third)[|first|..] == second + third
  {
  }

  /** The advice opens with exactly one speed paragraph: the one for the wpm's band. */
  lemma ExactlyOneSpeedParagraph(wpm: Option<int>, accuracy: Option<int>, weakKeys: seq<string>, i: nat)
    requires i < |SpeedTexts|
    ensures StartsWith(FallbackAdvice(wpm, accuracy, weakKeys), SpeedTexts[i]) <==> i == SpeedBand(wpm)
  {
    ParagraphLeads();
    OpensWith(SpeedTexts[SpeedBand(wpm)], AccuracyTexts[AccuracyBand(accuracy)], WeakKeyParagraph(weakKeys), SpeedTexts[i], 0);
  }

  /** After the speed paragraph comes exactly one accuracy paragraph: the one for the accuracy's band. */
  lemma ExactlyOneAccuracyParagraph(wpm: Option<int>, accuracy: Option<int>, weakKeys: seq<string>, j: nat)
    requires j < |AccuracyTexts|
    ensures var advice := FallbackAdvice(wpm, accuracy, weakKeys);
      StartsWith(advice[|SpeedTexts[SpeedBand(wpm)]|..], AccuracyTexts[j]) <==> j == AccuracyBand(accuracy)
  {
    ParagraphLeads();
    var chosen := AccuracyTexts[AccuracyBand(accuracy)];
    var rest := WeakKeyParagraph(weakKeys);
    AfterFirst(SpeedTexts[SpeedBand(wpm)], chosen, rest);
    var k := if chosen[2] != AccuracyTexts[j][2] then 2 else 5;
    OpensWith(chosen, rest, "", AccuracyTexts[j], k);
    assert chosen + rest + "" == chosen + rest;
  }

  /** The weak-key paragraph is appended exactly when there are weak keys. */
  lemma WeakParagraphIffWeakKeys(wpm: Option<int>, accuracy: Option<int>, weakKeys: seq<string>)
    ensures (|FallbackAdvice(wpm, accuracy, weakKeys)| >
             |SpeedTexts[SpeedBand(wpm)]| + |AccuracyTexts[AccuracyBand(accuracy)]|) <==> |weakKeys| > 0
  {
  }

  /** Only the first three weak keys are named: the rest do not change the advice. */
  lemma OnlyFirstThreeKeysNamed(wpm: Option<int>, accuracy: Option<int>, weakKeys: seq<string>)
    requires |weakKeys| >= 3
    ensures FallbackAdvice(wpm, accuracy, weakKeys) == FallbackAdvice(wpm, accuracy, weakKeys[..3])
  {
    assert SliceTo(weakKeys[..3], 3) == weakKeys[..3] == SliceTo(weakKeys, 3);
  }

  /** A NaN wpm or accuracy fails every `<` and so gets the top band's paragraph. */
  lemma NaNGetsTopBand()
    ensures SpeedBand(None) == 3 && AccuracyBand(None) == 2
  {
  }

  /**
   * analyzeTypingPerformance. The model's answer is a parameter: None when
   * the request throws, otherwise the trimmed answer.
   */
  method AnalyzeTypingPerformance(wpm: Option<int>, accuracy: Option<int>, weakKeys: seq<string>,
                                  apiKey: Option<string>, envKey: Option<string>, modelReply: Option<string>)
    returns (advice: string)
    ensures !Truthy(EffectiveApiKey(apiKey, envKey)) || !Truthy(modelReply) ==>
      advice == FallbackAdvice(wpm, accuracy, weakKeys)
    ensures Truthy(EffectiveApiKey(apiKey, envKey)) && Truthy(modelReply) ==> advice == modelReply.value
  {
    var effectiveApiKey := EffectiveApiKey(apiKey, envKey);
    if !Truthy(effectiveApiKey) {
      advice := GenerateFallbackAdvice(wpm, accuracy, weakKeys);
      return;
    }
    if modelReply.None? {
      advice := GenerateFallbackAdvice(wpm, accuracy, weakKeys);
      return;
    }
    if Truthy(modelReply) {
      advice := modelReply.value;
    } else {
      advice := GenerateFallbackAdvice(wpm, accuracy, weakKeys);
    }
  }

  /** The advice is never empty: every band has a paragraph. */
  lemma FallbackAdviceNonEmpty(wpm: Option<int>, accuracy: Option<int>, weakKeys: seq<string>)
    ensures |FallbackAdvice(wpm, accuracy, weakKeys)| > 0
  {
    ParagraphLeads();
  }
}

/**
 * The results page (app/results/page.tsx): the keys reported to the advice
 * as weak, and the rule that sends a visitor without results back to practice.
 */
module Results {
  import opened JsBuiltins
  import opened Analyzer
  import Keyboard
  import Ai

  /** The page's own weak-key bar: a miss rate strictly above 30%. */
  const WeakMissRate: real := 0.3

  /** At most this many weak keys are passed on. */
  const MaxWeakKeys: nat := 5

  /** The miss rate of one statistic; a key that was never pressed has rate 0. */
  function MissRate(stat: KeyStat): (rate: real)
    ensures 0.0 <= rate <= 1.0
    ensures stat.correctCount + stat.missCount == 0 ==> rate == 0.0
    ensures stat.correctCount + stat.missCount > 0 ==>
      rate * (stat.correctCount + stat.missCount) as real == stat.missCount as real
  {
    var totalPresses := stat.correctCount + stat.missCount;
    if totalPresses > 0 then stat.missCount as real / totalPresses as real else 0.0
  }

  /** The filter of the page: the miss rate exceeds the bar. */
  predicate ShownWeak(stat: KeyStat) {
    MissRate(stat) > WeakMissRate
  }

  /** The statistics that pass the filter, in their order. */
  function WeakStats(stats: seq<KeyStat>): seq<KeyStat>
    decreases |stats|
  {
    if stats == [] then []
    else
      var rest := WeakStats(stats[..|stats| - 1]);
      if ShownWeak(stats[|stats| - 1]) then rest + [stats[|stats| - 1]] else rest
  }

  /** The .map(stat => stat.key) step. */
  function KeysOf(stats: seq<KeyStat>): (keys: seq<string>)
    ensures |keys| == |stats| && forall i :: 0 <= i < |stats| ==> keys[i] == stats[i].key
  {
    seq(|stats|, i requires 0 <= i < |stats| => stats[i].key)
  }

  /** The whole chain: filter, take the keys, keep the first five. */
  function SelectWeakKeys(stats: seq<KeyStat>): seq<string> {
    SliceTo(KeysOf(WeakStats(stats)), MaxWeakKeys)
  }

  /** A statistic passes exactly when it is one of the inputs and its miss rate exceeds the bar. */
  lemma {:induction false} WeakStatsMembership(stats: seq<KeyStat>)
    ensures |WeakStats(stats)| <= |stats|
    ensures forall s :: s in WeakStats(stats) <==> s in stats && ShownWeak(s)
    decreases |stats|
  {
    if stats != [] {
      var init := stats[..|stats| - 1];
      WeakStatsMembership(init);
      assert stats == init + [stats[|stats| - 1]];
    }
  }

  /**
   * The keys handed on are the keys of the first weak statistics, in order:
   * all of them when there are at most five, otherwise the first five.
   */
  lemma SelectWeakKeysSpec(stats: seq<KeyStat>)
    ensures var weak := WeakStats(stats);
      var keys := SelectWeakKeys(stats);
      |keys| == (if |weak| < MaxWeakKeys then |weak| else MaxWeakKeys) &&
      forall i :: 0 <= i < |keys| ==> keys[i] == weak[i].key && weak[i] in stats && ShownWeak(weak[i])
  {
    WeakStatsMembership(stats);
  }

  /** A key never pressed has miss rate 0 and is never reported. */
  lemma UnpressedNeverShown(stat: KeyStat)
    requires stat.correctCount == 0 && stat.missCount == 0
    ensures !ShownWeak(stat) && SelectWeakKeys([stat]) == []
  {
    assert WeakStats([stat]) == WeakStats([]) by {
      assert [stat][..0] == [];
    }
  }

  /** Every statistic the page shows as weak also passes identifyWeakKeys at its default threshold. */
  lemma ShownWeakIsWeak(stat: KeyStat)
    requires ShownWeak(stat)
    ensures IsWeak(stat, DefaultWeakThreshold)
  {
  }

  /**
   * The page's selection is the strict filter applied after identifyWeakKeys:
   * it never reports a key that function would not.
   */
  lemma {:induction false} WeakStatsRefineIdentified(stats: seq<KeyStat>)
    ensures WeakStats(stats) == WeakStats(IdentifyWeakKeys(stats, DefaultWeakThreshold))
    decreases |stats|
  {
    if stats != [] {
      var init := stats[..|stats| - 1];
      var last := stats[|stats| - 1];
      WeakStatsRefineIdentified(init);
      var identified := IdentifyWeakKeys(init, DefaultWeakThreshold);
      if ShownWeak(last) {
        ShownWeakIsWeak(last);
      }
      if IsWeak(last, DefaultWeakThreshold) {
        assert (identified + [last])[..|identified|] == identified;
      }
    }
  }

  /** A key missed 3 times in 10 is weak for identifyWeakKeys (>= 0.3) but not for the page (> 0.3). */
  lemma BoundaryRateDiverges()
    ensures var stat := KeyStat("a", Keyboard.Pinky, Keyboard.Left, 7, 3, 0);
      MissRate(stat) == WeakMissRate &&
      IdentifyWeakKeys([stat], DefaultWeakThreshold) == [stat] &&
      SelectWeakKeys([stat]) == []
  {
    var stat := KeyStat("a", Keyboard.Pinky, Keyboard.Left, 7, 3, 0);
    assert [stat][..0] == [];
    assert WeakStats([stat]) == [];
    assert IdentifyWeakKeys([stat], DefaultWeakThreshold) == [] + [stat];
  }

  /** When the statistics have distinct keys, so do the weak ones. */
  lemma {:induction false} WeakKeysDistinct(stats: seq<KeyStat>)
    requires Keyboard.Distinct(KeysOf(stats))
    ensures Keyboard.Distinct(KeysOf(WeakStats(stats)))
    decreases |stats|
  {
    if stats != [] {
      var init := stats[..|stats| - 1];
      var last := stats[|stats| - 1];
      assert KeysOf(init) == KeysOf(stats)[..|init|];
      WeakKeysDistinct(init);
      if ShownWeak(last) {
        WeakStatsMembership(init);
        var weak := WeakStats(init);
        forall i | 0 <= i < |weak| ensures weak[i].key != last.key {
          assert weak[i] in init;
          var j :| 0 <= j < |init| && init[j] == weak[i];
          assert KeysOf(stats)[j] == weak[i].key;
        }
        var keys := KeysOf(weak + [last]);
        forall i, j | 0 <= i < j < |keys| ensures keys[i] != keys[j] {
          if j < |weak| {
            assert keys[i] == KeysOf(weak)[i] && keys[j] == KeysOf(weak)[j];
          }
        }
      }
    }
  }

  /** On the page, no key is reported twice: the statistics come one per distinct key. */
  lemma SelectedKeysDistinct(keyPresses: seq<KeyPress>)
    ensures Keyboard.Distinct(SelectWeakKeys(KeyStats(keyPresses)))
  {
    var stats := KeyStats(keyPresses);
    FirstOccurrencesDistinct(keyPresses);
    assert KeysOf(stats) == FirstOccurrences(keyPresses);
    WeakKeysDistinct(stats);
    var keys := KeysOf(WeakStats(stats));
    var selected := SelectWeakKeys(stats);
    assert selected == keys[..|selected|];
  }

  /**
   * The redirect test on the parsed query values (None stands for NaN, which
   * parseInt gives for text that is not a number): every one of them is falsy.
   */
  function ShouldRedirect(wpm: Option<int>, accuracy: Option<int>, characterCount: Option<int>): (redirect: bool)
    ensures redirect <==>
      ((wpm == None || wpm == Some(0)) && (accuracy == None || accuracy == Some(0)) &&
       (characterCount == None || characterCount == Some(0)))
  {
    !TruthyNumber(wpm) && !TruthyNumber(accuracy) && !TruthyNumber(characterCount)
  }

  /** What the page shows when the call to the advice action itself rejects. */
  const AdviceFailedText: string := "アドバイスの生成に失敗しました。"

  /** The analysis state of the page: the statistics, the advice, and whether the advice is still pending. */
  class ResultsView {
    var keyStats: seq<KeyStat>
    var aiAdvice: string
    var isAnalyzing: bool

    /** The initial state: no statistics, no advice, analysis pending. */
    constructor()
      ensures keyStats == [] && aiAdvice == "" && isAnalyzing
    {
      keyStats := [];
      aiAdvice := "";
      isAnalyzing := true;
    }

    /** The advice the report receives: nothing while the analysis is pending. */
    function DisplayedAdvice(): (shown: string)
      reads this
      ensures isAnalyzing ==> shown == ""
      ensures !isAnalyzing ==> shown == aiAdvice
    {
      if isAnalyzing then "" else aiAdvice
    }

    /**
     * The analysis effect, run to completion. The stored key presses, the
     * keys, the model's answer and whether the action call rejected are
     * parameters.
     */
    method Analyze(keyPresses: seq<KeyPress>, wpm: Option<int>, accuracy: Option<int>,
                   apiKey: Option<string>, envKey: Option<string>, modelReply: Option<string>, actionRejected: bool)
      modifies this
      ensures keyStats == KeyStats(keyPresses)
      ensures !isAnalyzing
      ensures actionRejected ==> aiAdvice == AdviceFailedText
      ensures !actionRejected && (!Truthy(Ai.EffectiveApiKey(apiKey, envKey)) || !Truthy(modelReply)) ==>
        aiAdvice == Ai.FallbackAdvice(wpm, accuracy, SelectWeakKeys(KeyStats(keyPresses)))
      ensures !actionRejected && Truthy(Ai.EffectiveApiKey(apiKey, envKey)) && Truthy(modelReply) ==>
        aiAdvice == modelReply.value
    {
      var stats := AnalyzeKeyStats(keyPresses);
      keyStats := stats;
      var weakKeys := SelectWeakKeys(stats);
      if actionRejected {
        aiAdvice := AdviceFailedText;
      } else {
        var advice := Ai.AnalyzeTypingPerformance(wpm, accuracy, weakKeys, apiKey, envKey, modelReply);
        aiAdvice := advice;
      }
      isAnalyzing := false;
    }
  }

  /**
   * The rule-based advice speaks of weak keys exactly when some key was
   * missed on more than 30% of its presses.
   */
  lemma AdviceMentionsWeakKeysIff(keyPresses: seq<KeyPress>, wpm: Option<int>, accuracy: Option<int>)
    ensures var stats := KeyStats(keyPresses);
      var weakKeys := SelectWeakKeys(stats);
      Ai.WeakKeyParagraph(weakKeys) != "" <==> exists s :: s in stats && ShownWeak(s)
  {
    var stats := KeyStats(keyPresses);
    WeakStatsMembership(stats);
    SelectWeakKeysSpec(stats);
    var weak := WeakStats(stats);
    if weak != [] {
      assert weak[0] in stats && ShownWeak(weak[0]);
    }
  }
}

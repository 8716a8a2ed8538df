/**
 * Per-key analysis of a typing session (lib/typing/analyzer.ts): keystrokes
 * become one statistic per distinct key, with correct and miss counts, the
 * mean interval before the key and the finger and hand that strike it.
 */
module Analyzer {
  import opened JsBuiltins
  import opened Keyboard
  import Calculator

  /** One keystroke: the key as recorded, its time in milliseconds, and whether it matched the target. */
  datatype KeyPress = KeyPress(key: string, timestamp: int, isCorrect: bool)

  datatype KeyStat = KeyStat(key: string, finger: Finger, hand: Hand, correctCount: nat, missCount: nat, averageTime: int)

  /** The per-key accumulator analyzeKeyStats keeps in its Map. */
  datatype Tally = Tally(correctCount: nat, missCount: nat, times: seq<int>)

  /**
   * keyToFingerMap, grouped by finger as the source lists it. Every key of the
   * table is one character, so it is written as a lookup on that character.
   */
  function KeyToFinger(c: char): Option<Assignment> {
    match c
    case '`' | '1' | 'q' | 'a' | 'z' => Some(Assignment(Pinky, Left))
    case '2' | 'w' | 's' | 'x' => Some(Assignment(Ring, Left))
    case '3' | 'e' | 'd' | 'c' => Some(Assignment(Middle, Left))
    case '4' | '5' | 'r' | 't' | 'f' | 'g' | 'v' | 'b' => Some(Assignment(Index, Left))
    case '6' | '7' | 'y' | 'u' | 'h' | 'j' | 'n' | 'm' => Some(Assignment(Index, Right))
    case '8' | 'i' | 'k' | ',' => Some(Assignment(Middle, Right))
    case '9' | 'o' | 'l' | '.' => Some(Assignment(Ring, Right))
    case '0' | '-' | '=' | 'p' | '[' | ']' | ';' | '\'' | '/' => Some(Assignment(Pinky, Right))
    case _ => None
  }

  /** The table entry of a key string: only one-character keys are in the table. */
  function TableEntry(key: string): Option<Assignment> {
    if |key| == 1 then KeyToFinger(key[0]) else None
  }

  /** The finger and hand for keys missing from the table (Japanese characters, the space bar). */
  const DefaultAssignment := Assignment(Index, Left)

  /** getFingerAndHand: the table entry of the lower-cased key, or the default. */
  function GetFingerAndHand(key: string): (a: Assignment)
    ensures TableEntry(Lower(key)).Some? ==> a == TableEntry(Lower(key)).value
    ensures TableEntry(Lower(key)).None? ==> a == DefaultAssignment
  {
    var lowerKey := Lower(key);
    var entry := TableEntry(lowerKey);
    if entry.Some? then entry.value else DefaultAssignment
  }

  /** The keys of the presses, in press order. */
  function PressKeys(p: seq<KeyPress>): (ks: seq<string>)
    ensures |ks| == |p| && forall i :: 0 <= i < |p| ==> ks[i] == p[i].key
  {
    seq(|p|, i requires 0 <= i < |p| => p[i].key)
  }

  /** The distinct keys of the presses in order of first occurrence (the Map's insertion order). */
  function FirstOccurrences(p: seq<KeyPress>): seq<string>
    decreases |p|
  {
    if p == [] then []
    else
      var ks := FirstOccurrences(p[..|p| - 1]);
      if p[|p| - 1].key in ks then ks else ks + [p[|p| - 1].key]
  }

  /** The number of correct presses of key. */
  function CorrectCount(p: seq<KeyPress>, key: string): nat
    decreases |p|
  {
    if p == [] then 0
    else CorrectCount(p[..|p| - 1], key) + (if p[|p| - 1].key == key && p[|p| - 1].isCorrect then 1 else 0)
  }

  /** The number of missed presses of key. */
  function MissCount(p: seq<KeyPress>, key: string): nat
    decreases |p|
  {
    if p == [] then 0
    else MissCount(p[..|p| - 1], key) + (if p[|p| - 1].key == key && !p[|p| - 1].isCorrect then 1 else 0)
  }

  /** The intervals credited to key: each press after the first is credited with the time since the press before it. */
  function Gaps(p: seq<KeyPress>, key: string): seq<int>
    decreases |p|
  {
    if |p| <= 1 then []
    else
      var n := |p|;
      Gaps(p[..n - 1], key) + (if p[n - 1].key == key then [p[n - 1].timestamp - p[n - 2].timestamp] else [])
  }

  /** What the Map holds for key after the presses p. */
  function TallyOf(p: seq<KeyPress>, key: string): Tally {
    Tally(CorrectCount(p, key), MissCount(p, key), Gaps(p, key))
  }

  function Sum(xs: seq<int>): int
    decreases |xs|
  {
    if xs == [] then 0 else Sum(xs[..|xs| - 1]) + xs[|xs| - 1]
  }

  /** Math.round of the mean interval, or 0 without intervals. */
  function AverageTime(times: seq<int>): (avg: int)
    ensures times == [] ==> avg == 0
    ensures times != [] ==>
      (avg as real - 0.5) * |times| as real <= Sum(times) as real < (avg as real + 0.5) * |times| as real
  {
    if |times| > 0 then
      var mean := Sum(times) as real / |times| as real;
      MeanScale(Sum(times), |times|, mean);
      Calculator.RoundingScaled(mean, |times| as real, Sum(times) as real);
      Round(mean)
    else 0
  }

  lemma MeanScale(total: int, n: nat, mean: real)
    requires n > 0
    requires mean == total as real / n as real
    ensures mean * n as real == total as real
  {
  }

  function StatFor(p: seq<KeyPress>, key: string): (s: KeyStat)
    ensures s.key == key
  {
    var a := GetFingerAndHand(key);
    KeyStat(key, a.finger, a.hand, CorrectCount(p, key), MissCount(p, key), AverageTime(Gaps(p, key)))
  }

  /** One statistic per key of ks, in that order. */
  function StatsFor(p: seq<KeyPress>, ks: seq<string>): (stats: seq<KeyStat>)
    ensures |stats| == |ks| && forall i :: 0 <= i < |ks| ==> stats[i] == StatFor(p, ks[i])
    decreases |ks|
  {
    if ks == [] then []
    else
      var init := ks[..|ks| - 1];
      var rest := StatsFor(p, init);
      assert forall i :: 0 <= i < |init| ==> init[i] == ks[i];
      rest + [StatFor(p, ks[|ks| - 1])]
  }

  /** The result of analyzeKeyStats, as a value. */
  function KeyStats(p: seq<KeyPress>): seq<KeyStat> {
    StatsFor(p, FirstOccurrences(p))
  }

  /** The first pass of analyzeKeyStats: the Map from key to tally, and its insertion order. */
  method TallyPresses(keyPresses: seq<KeyPress>) returns (keyMap: map<string, Tally>, order: seq<string>)
    ensures order == FirstOccurrences(keyPresses)
    ensures forall k :: k in keyMap <==> k in order
    ensures forall k :: k in keyMap ==> keyMap[k] == TallyOf(keyPresses, k)
  {
    keyMap := map[];
    order := [];
    for index := 0 to |keyPresses|
      invariant order == FirstOccurrences(keyPresses[..index])
      invariant forall k :: k in keyMap <==> k in order
      invariant forall k :: k in keyMap ==> keyMap[k] == TallyOf(keyPresses[..index], k)
    {
      var press := keyPresses[index];
      if press.key !in keyMap {
        AbsentKeyTally(keyPresses[..index], press.key);
      }
      var existing := if press.key in keyMap then keyMap[press.key] else Tally(0, 0, []);
      if press.isCorrect {
        existing := existing.(correctCount := existing.correctCount + 1);
      } else {
        existing := existing.(missCount := existing.missCount + 1);
      }
      if index > 0 {
        existing := existing.(times := existing.times + [press.timestamp - keyPresses[index - 1].timestamp]);
      }
      if press.key !in keyMap {
        order := order + [press.key];
      }
      TallyStep(keyPresses, index);
      keyMap := keyMap[press.key := existing];
    }
    assert keyPresses[..|keyPresses|] == keyPresses;
  }

  /** analyzeKeyStats: tally the presses, then turn each Map entry, in insertion order, into a statistic. */
  method AnalyzeKeyStats(keyPresses: seq<KeyPress>) returns (stats: seq<KeyStat>)
    ensures stats == KeyStats(keyPresses)
  {
    if |keyPresses| == 0 {
      return [];
    }
    var keyMap, order := TallyPresses(keyPresses);
    stats := [];
    for i := 0 to |order|
      invariant stats == StatsFor(keyPresses, order[..i])
    {
      var key := order[i];
      var value := keyMap[key];
      var fingerAndHand := GetFingerAndHand(key);
      stats := stats + [KeyStat(key, fingerAndHand.finger, fingerAndHand.hand,
                                value.correctCount, value.missCount, AverageTime(value.times))];
      StatOfTally(keyPresses, order, i, value);
    }
    assert order[..|order|] == order;
  }

  /** The statistic built from the tally of order[i] extends the statistics of order[..i]. */
  lemma StatOfTally(p: seq<KeyPress>, order: seq<string>, i: nat, value: Tally)
    requires i < |order| && value == TallyOf(p, order[i])
    ensures StatsFor(p, order[..i + 1]) ==
      StatsFor(p, order[..i]) + [KeyStat(order[i], GetFingerAndHand(order[i]).finger, GetFingerAndHand(order[i]).hand,
                                         value.correctCount, value.missCount, AverageTime(value.times))]
  {
    assert order[..i + 1] == order[..i] + [order[i]];
    StatsForSnoc(p, order[..i], order[i]);
  }

  lemma StatsForSnoc(p: seq<KeyPress>, ks: seq<string>, k: string)
    ensures StatsFor(p, ks + [k]) == StatsFor(p, ks) + [StatFor(p, k)]
  {
    assert (ks + [k])[..|ks|] == ks;
  }

  /** How one more press changes the tallies and the key order. */
  lemma TallyStep(p: seq<KeyPress>, n: nat)
    requires n < |p|
    ensures FirstOccurrences(p[..n + 1]) ==
      if p[n].key in FirstOccurrences(p[..n]) then FirstOccurrences(p[..n]) else FirstOccurrences(p[..n]) + [p[n].key]
    ensures forall k :: k != p[n].key ==> TallyOf(p[..n + 1], k) == TallyOf(p[..n], k)
    ensures TallyOf(p[..n + 1], p[n].key) ==
      var t := TallyOf(p[..n], p[n].key);
      Tally(t.correctCount + (if p[n].isCorrect then 1 else 0),
            t.missCount + (if p[n].isCorrect then 0 else 1),
            t.times + (if n > 0 then [p[n].timestamp - p[n - 1].timestamp] else []))
  {
    assert p[..n + 1][..n] == p[..n];
  }

  /** A key that was never pressed has an empty tally. */
  lemma {:induction false} AbsentKeyTally(p: seq<KeyPress>, key: string)
    requires key !in FirstOccurrences(p)
    ensures TallyOf(p, key) == Tally(0, 0, [])
    decreases |p|
  {
    if p != [] {
      var q := p[..|p| - 1];
      assert key !in FirstOccurrences(q);
      AbsentKeyTally(q, key);
    }
  }

  /** indexOf on a sequence grown by one element. */
  lemma {:induction false} IndexOfSnoc(xs: seq<string>, y: string, x: string)
    ensures x in xs ==> IndexOf(xs + [y], x) == IndexOf(xs, x)
    ensures x !in xs && x == y ==> IndexOf(xs + [y], x) == |xs|
    decreases |xs|
  {
    if xs != [] && xs[0] != x {
      assert (xs + [y])[1..] == xs[1..] + [y];
      IndexOfSnoc(xs[1..], y, x);
    }
  }

  lemma PressKeysSnoc(p: seq<KeyPress>)
    requires p != []
    ensures PressKeys(p) == PressKeys(p[..|p| - 1]) + [p[|p| - 1].key]
  {
  }

  /** The statistics name exactly the pressed keys. */
  lemma {:induction false} FirstOccurrencesMembership(p: seq<KeyPress>, k: string)
    ensures k in FirstOccurrences(p) <==> k in PressKeys(p)
    decreases |p|
  {
    if p != [] {
      FirstOccurrencesMembership(p[..|p| - 1], k);
      PressKeysSnoc(p);
    }
  }

  /** No key gets two statistics (keys are compared exactly, so 'H' and 'h' are different keys). */
  lemma {:induction false} FirstOccurrencesDistinct(p: seq<KeyPress>)
    ensures Distinct(FirstOccurrences(p))
    decreases |p|
  {
    if p != [] {
      var q := p[..|p| - 1];
      FirstOccurrencesDistinct(q);
      var ks := FirstOccurrences(q);
      var x := p[|p| - 1].key;
      if x !in ks {
        var ks' := ks + [x];
        forall a, b | 0 <= a < b < |ks'| ensures ks'[a] != ks'[b] {
          assert ks'[a] == ks[a];
          if b < |ks| { assert ks'[b] == ks[b]; }
        }
      }
    }
  }

  /** The statistics come in the order of each key's first press. */
  lemma {:induction false} FirstOccurrencesOrdered(p: seq<KeyPress>)
    ensures forall a, b :: 0 <= a < b < |FirstOccurrences(p)| ==>
      IndexOf(PressKeys(p), FirstOccurrences(p)[a]) < IndexOf(PressKeys(p), FirstOccurrences(p)[b])
    decreases |p|
  {
    if p != [] {
      var q := p[..|p| - 1];
      var x := p[|p| - 1].key;
      FirstOccurrencesOrdered(q);
      PressKeysSnoc(p);
      var ks, qs := FirstOccurrences(q), PressKeys(q);
      var ps := PressKeys(p);
      forall k | k in ks ensures IndexOf(ps, k) == IndexOf(qs, k) < |qs| {
        FirstOccurrencesMembership(q, k);
        IndexOfSnoc(qs, x, k);
      }
      OrderedKeepsIndices(ks, qs, ps);
      if x !in ks {
        FirstOccurrencesMembership(q, x);
        IndexOfSnoc(qs, x, x);
        OrderedSnoc(ks, ps, x, |qs|);
      }
    }
  }

  /** The keys ks appear in ps in the order of their first occurrences. */
  predicate OrderedBy(ks: seq<string>, ps: seq<string>) {
    forall a, b :: 0 <= a < b < |ks| ==> IndexOf(ps, ks[a]) < IndexOf(ps, ks[b])
  }

  /** The order carries over to a sequence where every key keeps its first index. */
  lemma OrderedKeepsIndices(ks: seq<string>, qs: seq<string>, ps: seq<string>)
    requires OrderedBy(ks, qs)
    requires forall k :: k in ks ==> IndexOf(ps, k) == IndexOf(qs, k)
    ensures OrderedBy(ks, ps)
  {
    forall a, b | 0 <= a < b < |ks| ensures IndexOf(ps, ks[a]) < IndexOf(ps, ks[b]) {
      assert ks[a] in ks && ks[b] in ks;
    }
  }

  /** A key first seen after all of ks extends the order. */
  lemma OrderedSnoc(ks: seq<string>, ps: seq<string>, x: string, n: int)
    requires OrderedBy(ks, ps)
    requires forall k :: k in ks ==> IndexOf(ps, k) < n
    requires IndexOf(ps, x) == n
    ensures OrderedBy(ks + [x], ps)
  {
    var ks' := ks + [x];
    forall a, b | 0 <= a < b < |ks'| ensures IndexOf(ps, ks'[a]) < IndexOf(ps, ks'[b]) {
      assert ks'[a] == ks[a] && ks[a] in ks;
      if b < |ks| {
        assert ks'[b] == ks[b];
      }
    }
  }

  /** For each key, its correct and missed presses together are all its presses. */
  lemma {:induction false} CountsCoverPresses(p: seq<KeyPress>, key: string)
    ensures CorrectCount(p, key) + MissCount(p, key) == multiset(PressKeys(p))[key]
    decreases |p|
  {
    if p != [] {
      CountsCoverPresses(p[..|p| - 1], key);
      PressKeysSnoc(p);
    }
  }

  /** The presses credited to a list of statistics. */
  function PressTotal(stats: seq<KeyStat>): nat
    decreases |stats|
  {
    if stats == [] then 0
    else PressTotal(stats[..|stats| - 1]) + stats[|stats| - 1].correctCount + stats[|stats| - 1].missCount
  }

  lemma {:induction false} PressTotalAddPress(p: seq<KeyPress>, x: KeyPress, ks: seq<string>)
    requires Distinct(ks)
    ensures PressTotal(StatsFor(p + [x], ks)) == PressTotal(StatsFor(p, ks)) + (if x.key in ks then 1 else 0)
    decreases |ks|
  {
    var px := p + [x];
    assert px[..|px| - 1] == p;
    if ks != [] {
      var ks0 := ks[..|ks| - 1];
      var k := ks[|ks| - 1];
      assert ks == ks0 + [k];
      assert Distinct(ks0);
      PressTotalAddPress(p, x, ks0);
      assert x.key in ks <==> x.key in ks0 || x.key == k;
      assert k !in ks0;
    }
  }

  lemma PressTotalSnoc(stats: seq<KeyStat>, s: KeyStat)
    ensures PressTotal(stats + [s]) == PressTotal(stats) + s.correctCount + s.missCount
  {
    assert (stats + [s])[..|stats|] == stats;
  }

  /** A press of a key not pressed before opens its statistic with one press. */
  lemma FirstPressCount(q: seq<KeyPress>, x: KeyPress)
    requires x.key !in FirstOccurrences(q)
    ensures CorrectCount(q + [x], x.key) + MissCount(q + [x], x.key) == 1
  {
    AbsentKeyTally(q, x.key);
    assert (q + [x])[..|q|] == q;
  }

  /** Every press is counted exactly once, under its own key. */
  lemma {:induction false} PressTotalIsPressCount(p: seq<KeyPress>)
    ensures PressTotal(KeyStats(p)) == |p|
    decreases |p|
  {
    if p != [] {
      var q := p[..|p| - 1];
      var x := p[|p| - 1];
      assert p == q + [x];
      PressTotalIsPressCount(q);
      var ks := FirstOccurrences(q);
      FirstOccurrencesDistinct(q);
      PressTotalAddPress(q, x, ks);
      if x.key !in ks {
        assert FirstOccurrences(p) == ks + [x.key];
        StatsForSnoc(p, ks, x.key);
        PressTotalSnoc(StatsFor(p, ks), StatFor(p, x.key));
        FirstPressCount(q, x);
      } else {
        assert FirstOccurrences(p) == ks;
      }
    }
  }

  /** Interval attribution: a key is credited one interval per press, except the session's very first press. */
  lemma {:induction false} GapsCount(p: seq<KeyPress>, key: string)
    ensures |Gaps(p, key)| == multiset(PressKeys(p))[key] - (if p != [] && p[0].key == key then 1 else 0)
    decreases |p|
  {
    if |p| == 1 {
      assert PressKeys(p) == [p[0].key];
    } else if |p| > 1 {
      var q := p[..|p| - 1];
      GapsCount(q, key);
      PressKeysSnoc(p);
      assert q[0] == p[0];
    }
  }

  /** d is the time from some press to the next one, a press of key. */
  predicate IsIntervalBefore(p: seq<KeyPress>, key: string, d: int) {
    exists i :: 0 < i < |p| && p[i].key == key && d == p[i].timestamp - p[i - 1].timestamp
  }

  /** Each credited interval is the time from the previous press to a press of the key. */
  lemma {:induction false} GapsAreIntervals(p: seq<KeyPress>, key: string)
    ensures forall j :: 0 <= j < |Gaps(p, key)| ==> IsIntervalBefore(p, key, Gaps(p, key)[j])
    decreases |p|
  {
    if |p| > 1 {
      var n := |p|;
      var q := p[..n - 1];
      GapsAreIntervals(q, key);
      var g, gq := Gaps(p, key), Gaps(q, key);
      assert g == gq + (if p[n - 1].key == key then [p[n - 1].timestamp - p[n - 2].timestamp] else []);
      forall j | 0 <= j < |g| ensures IsIntervalBefore(p, key, g[j]) {
        if j < |gq| {
          assert IsIntervalBefore(q, key, gq[j]);
          var i :| 0 < i < |q| && q[i].key == key && gq[j] == q[i].timestamp - q[i - 1].timestamp;
          assert g[j] == gq[j];
          assert p[i] == q[i] && p[i - 1] == q[i - 1];
        } else {
          assert g[j] == p[n - 1].timestamp - p[n - 2].timestamp;
          assert p[n - 1].key == key;
        }
      }
    }
  }

  /** getFingerAndHand lower-cases first. */
  lemma FingerAndHandIgnoresCase(key: string)
    ensures GetFingerAndHand(key) == GetFingerAndHand(Lower(key))
  {
    LowerIdempotent(key);
  }

  /** Keys the table does not know, such as the space bar or a kana, get the left index finger. */
  lemma UnmappedKeysDefault()
    ensures GetFingerAndHand(" ") == Assignment(Index, Left)
    ensures GetFingerAndHand("\U{3042}") == Assignment(Index, Left)
  {
    assert Lower(" ") == " ";
    assert Lower("\U{3042}") == "\U{3042}";
  }

  /** The home-row keys from the tests, and an upper-case letter. */
  lemma FingerAndHandExamples()
    ensures GetFingerAndHand("a") == Assignment(Pinky, Left)
    ensures GetFingerAndHand("A") == Assignment(Pinky, Left)
    ensures GetFingerAndHand("f") == Assignment(Index, Left)
    ensures GetFingerAndHand("j") == Assignment(Index, Right)
    ensures GetFingerAndHand(";") == Assignment(Pinky, Right)
  {
    assert Lower("a") == "a" && Lower("A") == "a" && Lower("f") == "f" && Lower("j") == "j" && Lower(";") == ";";
  }

  /** Whether identifyWeakKeys keeps a statistic: pressed at least once and a miss rate reaching the threshold. */
  predicate IsWeak(stat: KeyStat, threshold: real) {
    var total := stat.correctCount + stat.missCount;
    total != 0 && stat.missCount as real / total as real >= threshold
  }

  /** The threshold identifyWeakKeys uses when none is given. */
  const DefaultWeakThreshold: real := 0.3

  /** identifyWeakKeys: the statistics whose miss rate reaches the threshold, in their order. */
  function IdentifyWeakKeys(keyStats: seq<KeyStat>, threshold: real): (weak: seq<KeyStat>)
    decreases |keyStats|
  {
    if keyStats == [] then []
    else
      var rest := IdentifyWeakKeys(keyStats[..|keyStats| - 1], threshold);
      if IsWeak(keyStats[|keyStats| - 1], threshold) then rest + [keyStats[|keyStats| - 1]] else rest
  }

  /** A statistic is kept exactly when it is one of the inputs and weak; nothing is invented. */
  lemma {:induction false} WeakKeysMembership(keyStats: seq<KeyStat>, threshold: real)
    ensures |IdentifyWeakKeys(keyStats, threshold)| <= |keyStats|
    ensures forall s :: s in IdentifyWeakKeys(keyStats, threshold) <==> s in keyStats && IsWeak(s, threshold)
    decreases |keyStats|
  {
    if keyStats != [] {
      var init := keyStats[..|keyStats| - 1];
      WeakKeysMembership(init, threshold);
      assert keyStats == init + [keyStats[|keyStats| - 1]];
    }
  }

  /** Filtering a concatenation filters each part: the input order is kept. */
  lemma {:induction false} WeakKeysAppend(a: seq<KeyStat>, b: seq<KeyStat>, threshold: real)
    ensures IdentifyWeakKeys(a + b, threshold) == IdentifyWeakKeys(a, threshold) + IdentifyWeakKeys(b, threshold)
    decreases |b|
  {
    if b == [] {
      assert a + b == a;
    } else {
      var b0 := b[..|b| - 1];
      WeakKeysAppend(a, b0, threshold);
      assert (a + b)[..|a + b| - 1] == a + b0;
    }
  }

  /** A key never pressed is never weak, whatever the threshold. */
  lemma UnpressedNeverWeak(stat: KeyStat, threshold: real)
    requires stat.correctCount == 0 && stat.missCount == 0
    ensures IdentifyWeakKeys([stat], threshold) == []
  {
  }

  /** The presses of one of the tests: 'l' three times, the last one missed. */
  const ThreeLs: seq<KeyPress> := [KeyPress("l", 100, true), KeyPress("l", 200, true), KeyPress("l", 300, false)]

  lemma ThreeLsPrefixes()
    ensures ThreeLs[..2] == [KeyPress("l", 100, true), KeyPress("l", 200, true)]
    ensures ThreeLs[..2][..1] == [KeyPress("l", 100, true)]
    ensures ThreeLs[..2][..1][..0] == []
  {
  }

  lemma ThreeLsKeys()
    ensures FirstOccurrences(ThreeLs) == ["l"]
  {
    ThreeLsPrefixes();
    var p2 := ThreeLs[..2];
    var p1 := p2[..1];
    assert FirstOccurrences(p1) == ["l"];
    assert FirstOccurrences(p2) == ["l"];
  }

  lemma ThreeLsTally()
    ensures CorrectCount(ThreeLs, "l") == 2 && MissCount(ThreeLs, "l") == 1
    ensures Gaps(ThreeLs, "l") == [100, 100]
  {
    ThreeLsPrefixes();
    var p2 := ThreeLs[..2];
    var p1 := p2[..1];
    assert CorrectCount(p1, "l") == 1 && MissCount(p1, "l") == 0;
    assert CorrectCount(p2, "l") == 2 && MissCount(p2, "l") == 0;
    assert Gaps(p2, "l") == [100];
  }

  /** The three presses make a single statistic: two correct, one miss, 100 ms on average, right ring finger. */
  lemma AggregateExample()
    ensures KeyStats(ThreeLs) == [KeyStat("l", Ring, Right, 2, 1, 100)]
  {
    ThreeLsKeys();
    ThreeLsTally();
    ThreeLsAverage();
    assert GetFingerAndHand("l") == Assignment(Ring, Right) by {
      assert Lower("l") == "l";
    }
    assert StatFor(ThreeLs, "l") == KeyStat("l", Ring, Right, 2, 1, 100);
    assert StatsFor(ThreeLs, ["l"]) == [StatFor(ThreeLs, "l")];
  }

  /** Two intervals of 100 ms average to 100 ms. */
  lemma ThreeLsAverage()
    ensures AverageTime([100, 100]) == 100
  {
    assert Sum([100, 100]) == 200 by {
      assert [100, 100][..1] == [100];
    }
    RoundIsUnique(200.0 / 2.0, 100);
  }

  /**
   * Where the analyzer's table and the layout's finger table agree: on every
   * key of rows 1 to 3, and on row 4 except 'm'.
   */
  lemma TablesAgreeOnRow1()
    ensures forall k :: k in Row1Fingers ==> TableEntry(k) == Some(Row1Fingers[k])
  {
  }

  lemma TablesAgreeOnRow2()
    ensures forall k :: k in Row2Fingers ==> TableEntry(k) == Some(Row2Fingers[k])
  {
  }

  lemma TablesAgreeOnRow3()
    ensures forall k :: k in Row3Fingers ==> TableEntry(k) == Some(Row3Fingers[k])
  {
  }

  lemma TablesAgreeOnRow4ExceptM()
    ensures forall k :: k in Row4Fingers && k != "m" ==> TableEntry(k) == Some(Row4Fingers[k])
  {
  }

  /** Where they differ: 'm' is struck by the index finger here and the middle finger in the layout. */
  lemma TablesDifferOnM()
    ensures TableEntry("m") == Some(Assignment(Index, Right)) && FingerAssignments["m"] == Assignment(Middle, Right)
  {
    assert "m" in Row4Fingers && "m" !in Row5Fingers;
  }

  /** The space bar is missing here (so it gets the default) and is the right thumb's in the layout. */
  lemma TablesDifferOnSpace()
    ensures TableEntry(" ") == None && FingerAssignments[" "] == Assignment(Thumb, Right)
  {
    SpaceAssignment();
  }

  /** The backquote is in this table only. */
  lemma BackquoteOnlyHere()
    ensures TableEntry("`") == Some(Assignment(Pinky, Left)) && "`" !in FingerAssignments
  {
    assert "`" !in Row1 && "`" !in Row2 && "`" !in Row3 && "`" !in Row4 && "`" !in Row5;
    OutsideLayoutUnassigned("`");
  }

  /** A key in none of the layout's rows has no finger in the layout's table. */
  lemma OutsideLayoutUnassigned(key: string)
    requires key !in Row1 && key !in Row2 && key !in Row3 && key !in Row4 && key !in Row5
    ensures key !in FingerAssignments
  {
    AssignmentsCoverLayout();
    assert key !in AllKeys();
  }
}

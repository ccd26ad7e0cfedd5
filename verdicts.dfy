/** The verdict store and the statistics drawn from it: `saveVerdict`,
    `getVerdictsByCaseId`, `updateLastVerdictWithSurvey`, `computeStats` and
    `buildLearningContext`.

    The store is the in-memory list that `localStorage` holds as JSON; its reading and
    writing, and the failures the surrounding `try` blocks swallow, are not modelled.
    `Math.round` of a ratio is computed exactly in integers, without the floating
    point of the JavaScript. */
module Verdicts {
  import opened Wrappers
  import opened Text

  /** `LEARNING_THRESHOLD`: the verdicts a case needs before they feed the analysis. */
  const LearningThreshold: nat := 100

  /** The guilty verdict, as the form submits it. */
  const Guilty: string := "유죄"

  datatype Survey = Survey(q5: Option<nat>)

  /** One saved judgment. */
  datatype Verdict = Verdict(
    caseId: nat, timestamp: string, verdict: string, sentence: Option<string>,
    reason: string, emotionScore: int, legalScore: int, biases: seq<string>,
    survey: Survey)

  /** `if (v.sentence)`: a sentence that is present and not empty. */
  predicate HasSentence(v: Verdict) {
    v.sentence.Some? && v.sentence.value != ""
  }

  // ---------------------------------------------------------------------------
  // Filtering by case
  // ---------------------------------------------------------------------------

  /** `verdicts.filter(v => v.caseId === caseId)`. */
  function ByCase(vs: seq<Verdict>, caseId: nat): (r: seq<Verdict>)
    ensures |r| <= |vs|
  {
    if vs == [] then []
    else ByCase(vs[..|vs| - 1], caseId) + (if vs[|vs| - 1].caseId == caseId then [vs[|vs| - 1]] else [])
  }

  /** A verdict is kept exactly when it is in the list and belongs to the case. */
  lemma {:induction false} ByCaseMembers(vs: seq<Verdict>, caseId: nat)
    ensures forall v :: v in ByCase(vs, caseId) <==> v in vs && v.caseId == caseId
  {
    if vs != [] {
      var init := vs[..|vs| - 1];
      ByCaseMembers(init, caseId);
      assert vs == init + [vs[|vs| - 1]];
    }
  }

  lemma ByCaseAppend(vs: seq<Verdict>, v: Verdict, caseId: nat)
    ensures ByCase(vs + [v], caseId) == ByCase(vs, caseId) + (if v.caseId == caseId then [v] else [])
  {
    assert (vs + [v])[..|vs|] == vs;
  }

  /** Filtering keeps the order: the case's verdicts among the earlier records come
      before those among the later ones, whatever the split. */
  lemma {:induction false} ByCaseConcat(a: seq<Verdict>, b: seq<Verdict>, caseId: nat)
    ensures ByCase(a + b, caseId) == ByCase(a, caseId) + ByCase(b, caseId)
    decreases |b|
  {
    if b == [] {
      assert a + b == a;
    } else {
      var init, last := b[..|b| - 1], b[|b| - 1];
      var keep := if last.caseId == caseId then [last] else [];
      ByCaseConcat(a, init, caseId);
      assert a + b == (a + init) + [last];
      ByCaseAppend(a + init, last, caseId);
      ByCaseAppend(init, last, caseId);
      assert b == init + [last];
      assert ByCase(a, caseId) + ByCase(init, caseId) + keep
          == ByCase(a, caseId) + (ByCase(init, caseId) + keep);
    }
  }

  /** Filtering twice by the same case changes nothing. */
  lemma {:induction false} ByCaseIdempotent(vs: seq<Verdict>, caseId: nat)
    ensures ByCase(ByCase(vs, caseId), caseId) == ByCase(vs, caseId)
  {
    if vs != [] {
      var init, last := vs[..|vs| - 1], vs[|vs| - 1];
      ByCaseIdempotent(init, caseId);
      if last.caseId == caseId {
        ByCaseAppend(ByCase(init, caseId), last, caseId);
      } else {
        assert ByCase(vs, caseId) == ByCase(init, caseId) + [];
        assert ByCase(init, caseId) + [] == ByCase(init, caseId);
      }
    }
  }

  // ---------------------------------------------------------------------------
  // Counting
  // ---------------------------------------------------------------------------

  /** `verdicts.filter(v => v.verdict === '유죄').length`. */
  function GuiltyCount(vs: seq<Verdict>): (n: nat)
    ensures n <= |vs|
  {
    if vs == [] then 0 else GuiltyCount(vs[1..]) + (if vs[0].verdict == Guilty then 1 else 0)
  }

  /** The number of verdicts with a sentence. */
  function SentencedCount(vs: seq<Verdict>): (n: nat)
    ensures n <= |vs|
  {
    if vs == [] then 0
    else SentencedCount(vs[..|vs| - 1]) + (if HasSentence(vs[|vs| - 1]) then 1 else 0)
  }

  /** `vs.reduce((s, v) => s + (v.emotionScore || 0), 0)`. */
  function EmotionSum(vs: seq<Verdict>): int {
    if vs == [] then 0 else vs[0].emotionScore + EmotionSum(vs[1..])
  }

  /** `vs.reduce((s, v) => s + (v.legalScore || 0), 0)`. */
  function LegalSum(vs: seq<Verdict>): int {
    if vs == [] then 0 else vs[0].legalScore + LegalSum(vs[1..])
  }

  /** The `sentences` dictionary after the `forEach`: for every sentence, how many
      verdicts carry it. */
  function Tally(vs: seq<Verdict>): map<string, nat> {
    if vs == [] then map[]
    else
      var m := Tally(vs[..|vs| - 1]);
      var v := vs[|vs| - 1];
      if HasSentence(v) then
        var s := v.sentence.value;
        m[s := (if s in m then m[s] else 0) + 1]
      else m
  }

  /** The dictionary's keys in order of first occurrence. */
  function KeyOrder(vs: seq<Verdict>): seq<string> {
    if vs == [] then []
    else
      var ks := KeyOrder(vs[..|vs| - 1]);
      var v := vs[|vs| - 1];
      if HasSentence(v) && v.sentence.value !in ks then ks + [v.sentence.value] else ks
  }

  /** The sum of the values of `m` at `keys`. */
  function SumAt(keys: seq<string>, m: map<string, nat>): nat {
    if keys == [] then 0
    else SumAt(keys[..|keys| - 1], m) + (if keys[|keys| - 1] in m then m[keys[|keys| - 1]] else 0)
  }

  ghost predicate DistinctKeys(keys: seq<string>) {
    forall i, j :: 0 <= i < j < |keys| ==> keys[i] != keys[j]
  }

  /** Adding one to the value at a key of the list raises the sum by one. */
  lemma {:induction false} SumAtIncrement(keys: seq<string>, m: map<string, nat>, s: string, n: nat)
    requires DistinctKeys(keys) && s in keys
    requires n == (if s in m then m[s] else 0) + 1
    ensures SumAt(keys, m[s := n]) == SumAt(keys, m) + 1
  {
    var init, last := keys[..|keys| - 1], keys[|keys| - 1];
    assert DistinctKeys(init) by {
      forall i, j | 0 <= i < j < |init| ensures init[i] != init[j] {
        assert init[i] == keys[i] && init[j] == keys[j];
      }
    }
    if last == s {
      assert s !in init by {
        forall i | 0 <= i < |init| ensures init[i] != s {
          assert init[i] == keys[i];
        }
      }
      SumAtUnchanged(init, m, s, n);
    } else {
      assert s in init by {
        var i :| 0 <= i < |keys| && keys[i] == s;
        assert i < |init| && init[i] == s;
      }
      SumAtIncrement(init, m, s, n);
    }
  }

  /** A key outside the list does not affect the sum. */
  lemma {:induction false} SumAtUnchanged(keys: seq<string>, m: map<string, nat>, s: string, n: nat)
    requires s !in keys
    ensures SumAt(keys, m[s := n]) == SumAt(keys, m)
  {
    if keys != [] {
      var init := keys[..|keys| - 1];
      assert s !in init by {
        forall i | 0 <= i < |init| ensures init[i] != s {
          assert init[i] == keys[i];
        }
      }
      SumAtUnchanged(init, m, s, n);
    }
  }

  /** Adding a key whose value is one raises the sum by one. */
  lemma SumAtNewKey(keys: seq<string>, m: map<string, nat>, s: string)
    requires s !in keys
    ensures SumAt(keys + [s], m[s := 1]) == SumAt(keys, m) + 1
  {
    SumAtUnchanged(keys, m, s, 1);
    assert (keys + [s])[..|keys|] == keys;
  }

  /** A new key keeps the list free of repetitions. */
  lemma DistinctKeysAppend(keys: seq<string>, s: string)
    requires DistinctKeys(keys) && s !in keys
    ensures DistinctKeys(keys + [s])
  {
    var ks := keys + [s];
    forall i, j | 0 <= i < j < |ks| ensures ks[i] != ks[j] {
      assert ks[i] == keys[i];
      if j < |keys| {
        assert ks[j] == keys[j];
      }
    }
  }

  /** The dictionary's keys are exactly the sentences that occur, listed once each in
      the key order. */
  lemma {:induction false} TallyKeys(vs: seq<Verdict>)
    ensures Tally(vs).Keys == set k | k in KeyOrder(vs)
    ensures DistinctKeys(KeyOrder(vs))
  {
    if vs != [] {
      var init, v := vs[..|vs| - 1], vs[|vs| - 1];
      TallyKeys(init);
      if HasSentence(v) && v.sentence.value !in KeyOrder(init) {
        DistinctKeysAppend(KeyOrder(init), v.sentence.value);
      }
    }
  }

  /** A sentence is a key of the dictionary exactly when it is in the key order, and
      that order lists each key once. */
  lemma TallyKeyOf(vs: seq<Verdict>, s: string)
    ensures s in Tally(vs) <==> s in KeyOrder(vs)
    ensures DistinctKeys(KeyOrder(vs))
  {
    TallyKeys(vs);
  }

  /** The dictionary's counts, summed over its keys, give the number of verdicts with a
      sentence. */
  lemma {:induction false} TallySums(vs: seq<Verdict>)
    ensures SumAt(KeyOrder(vs), Tally(vs)) == SentencedCount(vs)
  {
    if vs != [] {
      var init, v := vs[..|vs| - 1], vs[|vs| - 1];
      TallySums(init);
      var m, ks := Tally(init), KeyOrder(init);
      if HasSentence(v) {
        var s := v.sentence.value;
        TallyKeyOf(init, s);
        if s in ks {
          SumAtIncrement(ks, m, s, (if s in m then m[s] else 0) + 1);
        } else {
          assert s !in m;
          SumAtNewKey(ks, m, s);
        }
      }
    }
  }

  /** The number of verdicts whose truthy sentence is `s`, counted from the front. */
  function CountOf(vs: seq<Verdict>, s: string): nat {
    if vs == [] then 0
    else (if HasSentence(vs[0]) && vs[0].sentence.value == s then 1 else 0) + CountOf(vs[1..], s)
  }

  lemma {:induction false} CountOfAppend(vs: seq<Verdict>, v: Verdict, s: string)
    ensures CountOf(vs + [v], s)
         == CountOf(vs, s) + (if HasSentence(v) && v.sentence.value == s then 1 else 0)
  {
    if vs != [] {
      assert (vs + [v])[1..] == vs[1..] + [v];
      CountOfAppend(vs[1..], v, s);
    } else {
      assert [v][1..] == [];
    }
  }

  /** Each sentence is counted separately: its entry in the dictionary is the number of
      verdicts that carry it, and a sentence no verdict carries has no entry. */
  lemma {:induction false} TallyCounts(vs: seq<Verdict>, s: string)
    ensures s in Tally(vs) ==> Tally(vs)[s] == CountOf(vs, s)
    ensures s !in Tally(vs) <==> CountOf(vs, s) == 0
  {
    if vs != [] {
      var init, v := vs[..|vs| - 1], vs[|vs| - 1];
      TallyCounts(init, s);
      assert init + [v] == vs;
      CountOfAppend(init, v, s);
    }
  }

  // ---------------------------------------------------------------------------
  // Rounding and the statistics
  // ---------------------------------------------------------------------------

  /** `Math.round(n / d)`: the nearest integer, halves rounded up. */
  function Round(n: int, d: nat): int
    requires d > 0
  {
    (2 * n + d) / (2 * d)
  }

  /** `Round(n, d)` is within half a unit of `n / d`. */
  lemma RoundNearest(n: int, d: nat)
    requires d > 0
    ensures 2 * d * Round(n, d) - d <= 2 * n < 2 * d * Round(n, d) + d
  {
  }

  lemma MulLeft(d: nat, a: int, b: int)
    requires d > 0 && d * a < d * b
    ensures a < b
  {
  }

  /** A ratio that lies between `lo` and `hi` rounds to a value between them. */
  lemma RoundBounds(n: int, d: nat, lo: int, hi: int)
    requires d > 0 && lo * d <= n <= hi * d
    ensures lo <= Round(n, d) <= hi
  {
    var r := Round(n, d);
    RoundNearest(n, d);
    MulLeft(d, 2 * r - 1, 2 * hi + 1);
    MulLeft(d, 2 * lo - 1, 2 * r + 1);
  }

  /** The two rates round complementary ratios, so they add up to 100 or, when both are
      exact halves, to 101. */
  lemma RatesSum(g: nat, t: nat)
    requires 0 < t && g <= t
    ensures 100 <= Round(100 * g, t) + Round(100 * (t - g), t) <= 101
  {
    var a, b := Round(100 * g, t), Round(100 * (t - g), t);
    RoundNearest(100 * g, t);
    RoundNearest(100 * (t - g), t);
    assert 2 * t * a - t <= 200 * g < 2 * t * a + t;
    assert 2 * t * b - t <= 200 * (t - g) < 2 * t * b + t;
    assert 2 * t * a + 2 * t * b == t * (2 * (a + b));
    MulLeft(t, 200, 2 * (a + b) + 2);
    MulLeft(t, 2 * (a + b) - 2, 201);
  }

  /** One guilty verdict out of eight shows 13% guilty and 88% innocent. */
  lemma RatesCanSumTo101()
    ensures Round(100 * 1, 8) + Round(100 * 7, 8) == 101
  {
  }

  /** The value `computeStats` returns for a non-empty list. */
  datatype Stats = Stats(
    total: nat, guiltyRate: int, innocentRate: int, sentences: map<string, nat>,
    avgEmotion: int, avgLegal: int)

  /** `computeStats(verdicts)`: `null` for no verdicts. */
  function StatsOf(vs: seq<Verdict>): Option<Stats> {
    if vs == [] then None
    else
      var t := |vs|;
      Some(Stats(t, Round(100 * GuiltyCount(vs), t), Round(100 * (t - GuiltyCount(vs)), t),
        Tally(vs), Round(EmotionSum(vs), t), Round(LegalSum(vs), t)))
  }

  /** `computeStats` in the order app.js computes it, with the `forEach` that
      fills the sentence dictionary. */
  method ComputeStats(vs: seq<Verdict>) returns (stats: Option<Stats>)
    ensures stats == StatsOf(vs)
  {
    if |vs| == 0 {
      return None;
    }
    var total := |vs|;
    var guiltyCount := GuiltyCount(vs);
    var sentences: map<string, nat> := map[];
    var i := 0;
    while i < |vs|
      invariant 0 <= i <= |vs|
      invariant sentences == Tally(vs[..i])
    {
      var v := vs[i];
      assert vs[..i + 1][..i] == vs[..i];
      if v.sentence.Some? && v.sentence.value != "" {
        var s := v.sentence.value;
        sentences := sentences[s := (if s in sentences then sentences[s] else 0) + 1];
      }
      i := i + 1;
    }
    assert vs[..i] == vs;
    stats := Some(Stats(total,
      Round(100 * guiltyCount, total), Round(100 * (total - guiltyCount), total),
      sentences, Round(EmotionSum(vs), total), Round(LegalSum(vs), total)));
  }

  lemma {:induction false} EmotionSumBounds(vs: seq<Verdict>, lo: int, hi: int)
    requires forall i :: 0 <= i < |vs| ==> lo <= vs[i].emotionScore <= hi
    ensures lo * |vs| <= EmotionSum(vs) <= hi * |vs|
  {
    if vs != [] {
      EmotionSumBounds(vs[1..], lo, hi);
    }
  }

  lemma {:induction false} LegalSumBounds(vs: seq<Verdict>, lo: int, hi: int)
    requires forall i :: 0 <= i < |vs| ==> lo <= vs[i].legalScore <= hi
    ensures lo * |vs| <= LegalSum(vs) <= hi * |vs|
  {
    if vs != [] {
      LegalSumBounds(vs[1..], lo, hi);
    }
  }

  /** The two rates of `g` guilty verdicts out of `t`: each in 0..100, together 100
      or 101. */
  lemma RatesProperties(g: nat, t: nat)
    requires 0 < t && g <= t
    ensures var gr, ir := Round(100 * g, t), Round(100 * (t - g), t);
      0 <= gr <= 100 && 0 <= ir <= 100 && 100 <= gr + ir <= 101
  {
    RoundBounds(100 * g, t, 0, 100);
    RoundBounds(100 * (t - g), t, 0, 100);
    RatesSum(g, t);
  }

  /** The statistics are `null` exactly for no verdicts; otherwise they count every
      verdict, and both rates lie in 0..100 and add up to 100 or 101. */
  lemma StatsRates(vs: seq<Verdict>)
    ensures StatsOf(vs).None? <==> vs == []
    ensures StatsOf(vs).Some? ==>
      && StatsOf(vs).value.total == |vs|
      && 0 <= StatsOf(vs).value.guiltyRate <= 100 && 0 <= StatsOf(vs).value.innocentRate <= 100
      && 100 <= StatsOf(vs).value.guiltyRate + StatsOf(vs).value.innocentRate <= 101
  {
    if vs != [] {
      RatesProperties(GuiltyCount(vs), |vs|);
    }
  }

  /** The sentence dictionary of the statistics holds each sentence that occurs, and its
      counts add up to the number of verdicts with a sentence. */
  lemma StatsSentences(vs: seq<Verdict>)
    requires vs != []
    ensures StatsOf(vs).value.sentences.Keys == set k | k in KeyOrder(vs)
    ensures SumAt(KeyOrder(vs), StatsOf(vs).value.sentences) == SentencedCount(vs)
  {
    TallyKeys(vs);
    TallySums(vs);
  }

  /** Each entry of the statistics' sentence dictionary counts the verdicts that carry
      that sentence. */
  lemma StatsSentenceCounts(vs: seq<Verdict>, s: string)
    requires vs != []
    ensures s in StatsOf(vs).value.sentences ==> StatsOf(vs).value.sentences[s] == CountOf(vs, s)
    ensures s !in StatsOf(vs).value.sentences <==> CountOf(vs, s) == 0
  {
    TallyCounts(vs, s);
  }

  /** Scores in 0..100 average to a value in 0..100. */
  lemma AveragesBounded(vs: seq<Verdict>)
    requires vs != []
    requires forall i :: 0 <= i < |vs| ==> 0 <= vs[i].emotionScore <= 100 && 0 <= vs[i].legalScore <= 100
    ensures 0 <= StatsOf(vs).value.avgEmotion <= 100 && 0 <= StatsOf(vs).value.avgLegal <= 100
  {
    EmotionSumBounds(vs, 0, 100);
    LegalSumBounds(vs, 0, 100);
    RoundBounds(EmotionSum(vs), |vs|, 0, 100);
    RoundBounds(LegalSum(vs), |vs|, 0, 100);
  }

  // ---------------------------------------------------------------------------
  // The learning context
  // ---------------------------------------------------------------------------

  const ContextHeader: string := "\n[축적된 국민 법감정 데이터 ("

  /** The opening line of the context, with the number of verdicts. */
  function ContextHead(total: nat): string {
    ContextHeader + NatToString(total) + "건)]\n"
  }

  /** The lines after the opening one: the rates, the averages and the instruction. */
  function ContextBody(s: Stats): string {
    "- 유죄 비율: " + IntToString(s.guiltyRate) + "%, 무죄 비율: " + IntToString(s.innocentRate) + "%\n"
    + "- 평균 감정 개입률: " + IntToString(s.avgEmotion) + "%, 평균 법적 합치성: " + IntToString(s.avgLegal) + "%\n"
    + "\n위 데이터는 이 사건에 대해 다수의 시민(판사)들이 내린 판결 통계입니다. \n"
    + "이를 참고하여 분석의 정확도를 높이되, 법리적 원칙에 어긋나지 않도록 하세요.\n"
  }

  /** The text `buildLearningContext` produces from non-empty statistics: it opens with
      the number of verdicts. */
  function ContextText(s: Stats): (r: string)
    ensures StartsWith(r, ContextHead(s.total))
  {
    PrefixStartsWith(ContextHead(s.total), ContextBody(s));
    ContextHead(s.total) + ContextBody(s)
  }

  // ---------------------------------------------------------------------------
  // The store
  // ---------------------------------------------------------------------------

  class VerdictStore {
    /** The list saved under `STORAGE_KEY`, oldest first. */
    var verdicts: seq<Verdict>

    constructor ()
      ensures verdicts == []
    {
      verdicts := [];
    }

    /** `saveVerdict(data)`: the record is appended. */
    method SaveVerdict(v: Verdict)
      modifies this
      ensures verdicts == old(verdicts) + [v]
    {
      verdicts := verdicts + [v];
    }

    /** `getVerdictsByCaseId(caseId)`. */
    function GetVerdictsByCaseId(caseId: nat): (r: seq<Verdict>)
      reads this
      ensures forall v :: v in r <==> v in verdicts && v.caseId == caseId
    {
      ByCaseMembers(verdicts, caseId);
      ByCase(verdicts, caseId)
    }

    /** `buildLearningContext(caseId)`: empty below the threshold; otherwise the
        statistics of the case's verdicts, introduced by their number. */
    function BuildLearningContext(caseId: nat): (r: string)
      reads this
      ensures r == "" <==> |GetVerdictsByCaseId(caseId)| < LearningThreshold
      ensures r != "" ==> StartsWith(r, ContextHead(|GetVerdictsByCaseId(caseId)|))
    {
      var vs := GetVerdictsByCaseId(caseId);
      if |vs| < LearningThreshold then ""
      else
        var r := ContextText(StatsOf(vs).value);
        assert r[0] == ContextHeader[0];
        r
    }

    /** `updateLastVerdictWithSurvey()`: nothing to do on an empty list; otherwise only
        the survey of the last record changes, to 100 when the positive answer is
        active and 0 otherwise. */
    method UpdateLastVerdictWithSurvey(q5Active: bool)
      modifies this
      ensures old(verdicts) == [] ==> verdicts == []
      ensures old(verdicts) != [] ==>
        && |verdicts| == |old(verdicts)|
        && verdicts[..|verdicts| - 1] == old(verdicts)[..|old(verdicts)| - 1]
        && verdicts[|verdicts| - 1]
           == old(verdicts)[|old(verdicts)| - 1].(survey := Survey(Some(if q5Active then 100 else 0)))
    {
      if |verdicts| == 0 {
        return;
      }
      var lastIndex := |verdicts| - 1;
      verdicts := verdicts[lastIndex := verdicts[lastIndex].(survey := Survey(Some(if q5Active then 100 else 0)))];
    }
  }
}

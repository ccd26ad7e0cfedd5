/** The keyword heuristic `generateMockAiData`, used when the remote analysis is not
    available: two lexicon hit counts, three predicates on the judgment, two score
    formulas with clamps, and tag pools from which tags are drawn at random.

    The randomness is injected. `sort(() => Math.random() - 0.5)` followed by
    `slice(0, n)` yields some ordering of the pool and keeps its first `n` elements, that
    is, `n` distinct pool elements in some order; `Draw` produces exactly such a choice
    from a sequence of injected picks. `2 + Math.floor(Math.random() * 2)` is the flag
    `extraTag`, and `Math.floor(Math.random() * 5)` is `genericPick` (taken modulo the
    pool size). `toLowerCase` is the identity on the Hangul lexicons and is left out. */
module Fallback {
  import opened Text

  // ---------------------------------------------------------------------------
  // Lexicons and hit counts
  // ---------------------------------------------------------------------------

  const EmotionalWords: seq<string> := ["불쌍", "안타", "가엾", "괘씸", "나쁜", "분노", "용서",
    "화", "어쩔 수 없", "억울", "인간적", "죽여", "처단", "보복"]

  const LegalWords: seq<string> := ["법", "규정", "원칙", "위반", "전과", "누범", "상해", "고의",
    "증거", "판례", "합당", "비례"]

  /** `words.filter(w => text.includes(w)).length`: how many of the words occur in the
      text, each counted once however often it occurs. */
  function CountHits(words: seq<string>, text: string): (n: nat)
    ensures n <= |words|
  {
    if words == [] then 0
    else (if Contains(text, words[0]) then 1 else 0) + CountHits(words[1..], text)
  }

  /** No hit at all exactly when no word occurs; a hit for every word exactly when every
      word occurs. */
  lemma {:induction false} CountHitsExtremes(words: seq<string>, text: string)
    ensures CountHits(words, text) == 0 <==> forall i :: 0 <= i < |words| ==> !Contains(text, words[i])
    ensures CountHits(words, text) == |words| <==> forall i :: 0 <= i < |words| ==> Contains(text, words[i])
  {
    if words != [] {
      CountHitsExtremes(words[1..], text);
      assert forall i :: 1 <= i < |words| ==> words[i] == words[1..][i - 1];
    }
  }

  // ---------------------------------------------------------------------------
  // The judgment predicates
  // ---------------------------------------------------------------------------

  /** `isExtremePunishment`: the chosen sentence is death or life imprisonment. */
  predicate IsExtremePunishment(sentence: string) {
    sentence == "사형" || sentence == "무기징역"
  }

  /** `isMinorCase`: the case title names the bread theft. */
  predicate IsMinorCase(title: string) {
    Contains(title, "장발장") || Contains(title, "빵")
  }

  /** `isSuspiciouslyShort`. */
  predicate IsSuspiciouslyShort(text: string) {
    |text| < 15
  }

  /** The texts that add the pity tags. */
  predicate ExpressesPity(text: string) {
    Contains(text, "불쌍") || Contains(text, "안타")
  }

  // ---------------------------------------------------------------------------
  // Scores
  // ---------------------------------------------------------------------------

  function Min(a: int, b: int): int {
    if a <= b then a else b
  }

  function Max(a: int, b: int): int {
    if a >= b then a else b
  }

  /** `Math.min(95, Math.max(5, 30 + em * 20 - leg * 5))`. */
  function EmotionScore(em: nat, leg: nat): (s: int)
    ensures 5 <= s <= 95
  {
    Min(95, Max(5, 30 + em * 20 - leg * 5))
  }

  /** `Math.max(5, Math.min(95, 70 + leg * 10 - em * 15))`. */
  function LegalScore(em: nat, leg: nat): (s: int)
    ensures 5 <= s <= 95
  {
    Max(5, Min(95, 70 + leg * 10 - em * 15))
  }

  /** More emotional words never lower the emotion score nor raise the legal score; more
      legal words do the opposite. */
  lemma ScoresMonotone(em: nat, leg: nat, em': nat, leg': nat)
    requires em <= em' && leg' <= leg
    ensures EmotionScore(em, leg) <= EmotionScore(em', leg')
    ensures LegalScore(em', leg') <= LegalScore(em, leg)
  {
  }

  /** Text with no word of either lexicon scores 30 and 70; three legal words and no
      emotional one score 15 and, clamped from 100, 95. */
  lemma SampleScores()
    ensures EmotionScore(0, 0) == 30 && LegalScore(0, 0) == 70
    ensures EmotionScore(0, 3) == 15 && LegalScore(0, 3) == 95
  {
  }

  // ---------------------------------------------------------------------------
  // Tag pools and drawing
  // ---------------------------------------------------------------------------

  const PunitiveTags: seq<string> := ["과잉 처벌 편향", "보복 심리 중심", "엄벌 만능주의",
    "비례 원칙 간과", "응보적 정의관", "정의감 과잉", "처벌 지상주의"]
  const EmotionTags: seq<string> := ["직관 기반 편향", "정서적 이입", "주관적 판단", "감정적 접근"]
  const UnfoundedTags: seq<string> := ["법리적 근거 부재", "상식 기반 판단", "논리 비약 가능성"]
  const PityTags: seq<string> := ["상황론적 온정주의", "동정심 기반 관대함", "연민에 의한 판단"]
  const GenericTags: seq<string> := ["원칙주의적 성향", "객관적 판단 시도", "기계적 법 적용",
    "상식 기반 판단", "확증 편향 방어"]

  ghost predicate Distinct<T>(s: seq<T>) {
    forall i, j :: 0 <= i < j < |s| ==> s[i] != s[j]
  }

  /** `commonPool` as the three `push` calls build it. */
  function CommonPool(em: nat, leg: nat, text: string): seq<string> {
    (if em > 0 then EmotionTags else [])
    + (if leg == 0 && IsSuspiciouslyShort(text) then UnfoundedTags else [])
    + (if ExpressesPity(text) then PityTags else [])
  }

  /** Removes position `k`. */
  function RemoveAt<T>(s: seq<T>, k: nat): (r: seq<T>)
    requires k < |s|
    ensures |r| == |s| - 1
    ensures forall i :: 0 <= i < |r| ==> r[i] == if i < k then s[i] else s[i + 1]
  {
    s[..k] + s[k + 1..]
  }

  /** `n` elements taken one after another from what is left of the pool, the i-th at
      position `picks[i]` modulo the number left (0 once the picks run out). */
  function Draw<T>(pool: seq<T>, picks: seq<nat>, n: nat): (r: seq<T>)
    ensures |r| == Min(n, |pool|)
    decreases n
  {
    if n == 0 || pool == [] then []
    else
      var k := (if picks == [] then 0 else picks[0]) % |pool|;
      var rest := Draw(RemoveAt(pool, k), if picks == [] then [] else picks[1..], n - 1);
      [pool[k]] + rest
  }

  /** Removing one position of a pool without repeated elements leaves such a pool,
      without the removed element. */
  lemma RemoveAtDistinct<T>(s: seq<T>, k: nat)
    requires k < |s| && Distinct(s)
    ensures Distinct(RemoveAt(s, k)) && s[k] !in RemoveAt(s, k)
  {
    var r := RemoveAt(s, k);
    forall i, j | 0 <= i < j < |r| ensures r[i] != r[j] {
      var i' := if i < k then i else i + 1;
      var j' := if j < k then j else j + 1;
      assert r[i] == s[i'] && r[j] == s[j'];
    }
  }

  /** Only pool elements are drawn. */
  lemma {:induction false} DrawFromPool<T>(pool: seq<T>, picks: seq<nat>, n: nat)
    ensures forall x :: x in Draw(pool, picks, n) ==> x in pool
    decreases n
  {
    if n > 0 && pool != [] {
      var k := (if picks == [] then 0 else picks[0]) % |pool|;
      var rem := RemoveAt(pool, k);
      var picks' := if picks == [] then [] else picks[1..];
      DrawFromPool(rem, picks', n - 1);
      forall x | x in rem ensures x in pool {
        var i :| 0 <= i < |rem| && rem[i] == x;
        assert pool[if i < k then i else i + 1] == x;
      }
    }
  }

  /** Drawing from a pool without repeated elements draws each element at most once. */
  lemma {:induction false} DrawDistinct<T>(pool: seq<T>, picks: seq<nat>, n: nat)
    requires Distinct(pool)
    ensures Distinct(Draw(pool, picks, n))
    decreases n
  {
    if n > 0 && pool != [] {
      var k := (if picks == [] then 0 else picks[0]) % |pool|;
      var rem := RemoveAt(pool, k);
      var picks' := if picks == [] then [] else picks[1..];
      RemoveAtDistinct(pool, k);
      DrawDistinct(rem, picks', n - 1);
      DrawFromPool(rem, picks', n - 1);
      var rest := Draw(rem, picks', n - 1);
      var r := [pool[k]] + rest;
      assert Draw(pool, picks, n) == r;
      forall i, j | 0 <= i < j < |r| ensures r[i] != r[j] {
        if i == 0 {
          assert r[j] == rest[j - 1] && rest[j - 1] in rem;
        } else {
          assert r[i] == rest[i - 1] && r[j] == rest[j - 1];
        }
      }
    }
  }

  lemma DistinctAppend<T>(a: seq<T>, b: seq<T>)
    requires Distinct(a) && Distinct(b)
    requires forall i :: 0 <= i < |a| ==> a[i] !in b
    ensures Distinct(a + b)
  {
    var ab := a + b;
    forall i, j | 0 <= i < j < |ab| ensures ab[i] != ab[j] {
      if j >= |a| && i < |a| {
        assert ab[j] == b[j - |a|];
        assert ab[i] == a[i];
      } else if i >= |a| {
        assert ab[i] == b[i - |a|] && ab[j] == b[j - |a|];
      }
    }
  }

  /** No tag is repeated within a pool or across the three pools of `commonPool`. */
  lemma CommonPoolDistinct(em: nat, leg: nat, text: string)
    ensures Distinct(CommonPool(em, leg, text))
  {
    var e := if em > 0 then EmotionTags else [];
    var u := if leg == 0 && IsSuspiciouslyShort(text) then UnfoundedTags else [];
    var p := if ExpressesPity(text) then PityTags else [];
    assert Distinct(e) && Distinct(u) && Distinct(p);
    DistinctAppend(e, u);
    assert forall i :: 0 <= i < |e + u| ==> (e + u)[i] !in p;
    DistinctAppend(e + u, p);
  }

  lemma PunitiveTagsDistinct()
    ensures Distinct(PunitiveTags)
  {
  }

  // ---------------------------------------------------------------------------
  // The heuristic
  // ---------------------------------------------------------------------------

  /** The injected random choices. */
  datatype Randomness = Randomness(picks: seq<nat>, extraTag: bool, genericPick: nat)

  /** `state.aiAnalysis`. */
  datatype AnalysisResult = AnalysisResult(
    emotionScore: int, emotionReason: string,
    legalScore: int, legalReason: string,
    biases: seq<string>)

  const HarshEmotionReason: string := "범죄의 중대성에 비해 감정적인 보복 심리가 매우 강하게 반영되었습니다."
  const HarshLegalReason: string := "죄형법정주의와 비례의 원칙을 크게 벗어난 판결로 분석됩니다."
  const DefaultEmotionReason: string := "입력하신 문장에서 주관적인 감정 표현이 감지되었습니다."
  const DefaultLegalReason: string := "법률적 근거보다는 일반적인 상식에 기반한 판단으로 보입니다."

  /** The "harsh" branch: an extreme sentence for a minor case, or with a too short
      reason. */
  predicate IsHarsh(text: string, sentence: string, title: string) {
    IsExtremePunishment(sentence) && (IsMinorCase(title) || IsSuspiciouslyShort(text))
  }

  /** The tags `generateMockAiData` ends with: two punitive tags in the harsh branch, else
      up to two or three tags of `commonPool`, and one generic tag when nothing was drawn. */
  function MockBiases(text: string, sentence: string, title: string, rng: Randomness): seq<string> {
    var drawn :=
      if IsHarsh(text, sentence, title) then Draw(PunitiveTags, rng.picks, 2)
      else
        var pool := CommonPool(CountHits(EmotionalWords, text), CountHits(LegalWords, text), text);
        if pool == [] then [] else Draw(pool, rng.picks, Min(|pool|, if rng.extraTag then 3 else 2));
    if drawn == [] then [GenericTags[rng.genericPick % |GenericTags|]] else drawn
  }

  /** The value `generateMockAiData` stores in `state.aiAnalysis`. */
  function MockAnalysis(text: string, sentence: string, title: string, rng: Randomness): AnalysisResult {
    var em, leg := CountHits(EmotionalWords, text), CountHits(LegalWords, text);
    var harsh := IsExtremePunishment(sentence) && IsMinorCase(title);
    AnalysisResult(
      if IsHarsh(text, sentence, title) then 90 else EmotionScore(em, leg),
      if harsh then HarshEmotionReason else DefaultEmotionReason,
      if IsHarsh(text, sentence, title) then 5 else LegalScore(em, leg),
      if harsh then HarshLegalReason else DefaultLegalReason,
      MockBiases(text, sentence, title, rng))
  }

  /** `generateMockAiData(text)` for the judgment `sentence` on the case titled `title`. */
  method GenerateMockAiData(text: string, sentence: string, title: string, rng: Randomness)
    returns (r: AnalysisResult)
    ensures r == MockAnalysis(text, sentence, title, rng)
  {
    var emotionScore: int := 10;
    var legalScore: int := 90;
    var biases: seq<string> := [];
    var emCount := CountHits(EmotionalWords, text);
    var legCount := CountHits(LegalWords, text);
    var isExtreme := IsExtremePunishment(sentence);
    var isMinor := IsMinorCase(title);
    var isShort := IsSuspiciouslyShort(text);
    if isExtreme && (isMinor || isShort) {
      emotionScore := 90;
      legalScore := 5;
      biases := Draw(PunitiveTags, rng.picks, 2);
    } else {
      emotionScore := EmotionScore(emCount, legCount);
      legalScore := LegalScore(emCount, legCount);
      var commonPool: seq<string> := [];
      if emCount > 0 {
        commonPool := commonPool + EmotionTags;
      }
      if legCount == 0 && isShort {
        commonPool := commonPool + UnfoundedTags;
      }
      if ExpressesPity(text) {
        commonPool := commonPool + PityTags;
      }
      assert commonPool == CommonPool(emCount, legCount, text);
      if |commonPool| > 0 {
        biases := Draw(commonPool, rng.picks, Min(|commonPool|, 2 + (if rng.extraTag then 1 else 0)));
      }
    }
    if |biases| == 0 {
      biases := biases + [GenericTags[rng.genericPick % |GenericTags|]];
    }
    assert biases == MockBiases(text, sentence, title, rng);
    var harsh := isExtreme && isMinor;
    r := AnalysisResult(
      emotionScore, if harsh then HarshEmotionReason else DefaultEmotionReason,
      legalScore, if harsh then HarshLegalReason else DefaultLegalReason,
      biases);
  }

  /** The tag list is never empty and never repeats a tag. */
  lemma MockBiasesDistinct(text: string, sentence: string, title: string, rng: Randomness)
    ensures var b := MockAnalysis(text, sentence, title, rng).biases;
      b != [] && Distinct(b)
  {
    if IsHarsh(text, sentence, title) {
      PunitiveTagsDistinct();
      DrawDistinct(PunitiveTags, rng.picks, 2);
    } else {
      var em, leg := CountHits(EmotionalWords, text), CountHits(LegalWords, text);
      var pool := CommonPool(em, leg, text);
      CommonPoolDistinct(em, leg, text);
      DrawDistinct(pool, rng.picks, Min(|pool|, if rng.extraTag then 3 else 2));
    }
  }

  /** The harsh branch: fixed scores 90 and 5 and exactly two punitive tags. */
  lemma MockHarsh(text: string, sentence: string, title: string, rng: Randomness)
    requires IsHarsh(text, sentence, title)
    ensures var r := MockAnalysis(text, sentence, title, rng);
      && r.emotionScore == 90 && r.legalScore == 5
      && |r.biases| == 2 && forall x :: x in r.biases ==> x in PunitiveTags
  {
    DrawFromPool(PunitiveTags, rng.picks, 2);
  }

  /** The general branch: the clamped scores; two or three tags from `commonPool` (all of
      it when it is smaller), or one generic tag when `commonPool` is empty. */
  lemma MockGeneral(text: string, sentence: string, title: string, rng: Randomness)
    requires !IsHarsh(text, sentence, title)
    ensures var r := MockAnalysis(text, sentence, title, rng);
      var em, leg := CountHits(EmotionalWords, text), CountHits(LegalWords, text);
      var pool := CommonPool(em, leg, text);
      && r.emotionScore == EmotionScore(em, leg) && r.legalScore == LegalScore(em, leg)
      && (pool != [] ==>
            && |r.biases| == Min(|pool|, if rng.extraTag then 3 else 2)
            && forall x :: x in r.biases ==> x in pool)
      && (pool == [] ==> |r.biases| == 1 && r.biases[0] in GenericTags)
  {
    var em, leg := CountHits(EmotionalWords, text), CountHits(LegalWords, text);
    var pool := CommonPool(em, leg, text);
    if pool != [] {
      DrawFromPool(pool, rng.picks, Min(|pool|, if rng.extraTag then 3 else 2));
    }
  }

  /** The disproportion reasons are given exactly for an extreme sentence on a minor case. */
  lemma MockReasons(text: string, sentence: string, title: string, rng: Randomness)
    ensures var r := MockAnalysis(text, sentence, title, rng);
      && (r.emotionReason == HarshEmotionReason <==> IsExtremePunishment(sentence) && IsMinorCase(title))
      && (r.legalReason == HarshLegalReason <==> IsExtremePunishment(sentence) && IsMinorCase(title))
  {
    assert HarshEmotionReason[0] != DefaultEmotionReason[0];
    assert HarshLegalReason[0] != DefaultLegalReason[0];
  }

  /** Pity words are emotional words, so the pity tags never come without the emotional
      tags. */
  lemma PityImpliesEmotionTags(em: nat, leg: nat, text: string)
    requires em == CountHits(EmotionalWords, text) && ExpressesPity(text)
    ensures em > 0
    ensures var pool := CommonPool(em, leg, text);
      |EmotionTags| <= |pool| && pool[..|EmotionTags|] == EmotionTags
  {
    CountHitsExtremes(EmotionalWords, text);
    assert EmotionalWords[0] == "불쌍" && EmotionalWords[1] == "안타";
  }

  /** A short reason with an extreme sentence gets the harsh scores, but the
      disproportion reasons need a minor case: without one the default reasons stay. */
  lemma ShortAloneKeepsDefaultReasons(text: string, sentence: string, title: string, rng: Randomness)
    requires IsExtremePunishment(sentence) && IsSuspiciouslyShort(text) && !IsMinorCase(title)
    ensures var r := MockAnalysis(text, sentence, title, rng);
      && r.emotionScore == 90 && r.legalScore == 5
      && r.emotionReason == DefaultEmotionReason && r.legalReason == DefaultLegalReason
  {
  }
}

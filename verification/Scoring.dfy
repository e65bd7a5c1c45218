/** Per-case scores: raw values mapped to a score and a status, and what every score satisfies. */
module Scoring {
  import opened Wrappers
  import opened Stats
  import CondTokenizer
  import CondEval

  type Value = CondEval.Value

  datatype CaseStatus = Pass | Fail | Error | Skipped

  datatype CaseScore = CaseScore(
    metric: string, caseId: string, score: Option<real>, passed: bool, status: CaseStatus, onRetryOverride: bool)

  datatype ScoringType = Binary | Numeric | Categorical
  datatype OnMissing = MissFail | MissSkip | MissPass

  /** The scoring block of a metric; the specification model guarantees lo <= hi. */
  datatype ScoringRule = ScoringRule(kind: ScoringType, lo: real, hi: real, categories: seq<string>, condition: string)

  predicate ValidRule(rule: ScoringRule) { rule.lo <= rule.hi }

  /** One observed value, or the list that occurrence "all" selects. */
  datatype Raw = One(value: Value) | Many(values: seq<Value>)

  /** Evaluation errors become ERROR results; a crash is an exception no handler here catches. */
  datatype Trouble = EvaluationError | Crash

  type Scored = Result<(Option<real>, bool), Trouble>

  /** The score is in [0,1], absent exactly for ERROR and SKIPPED, and PASS means passed. */
  ghost predicate WellScored(s: CaseScore) {
    && (s.status.Pass? <==> s.passed)
    && (s.score.None? <==> s.status.Error? || s.status.Skipped?)
    && (s.score.Some? ==> 0.0 <= s.score.value <= 1.0)
  }

  predicate InRange(rule: ScoringRule, v: Value) { v.Num? && rule.lo <= v.n <= rule.hi }

  /** Normalised into [0,1]; a value that is no number scores 0. */
  function Normalize(rule: ScoringRule, v: Value): (score: real)
    requires ValidRule(rule)
    ensures 0.0 <= score <= 1.0
    ensures InRange(rule, v) && rule.lo < rule.hi ==> score * (rule.hi - rule.lo) == v.n - rule.lo
    ensures v.Num? && rule.lo == rule.hi ==> score == if InRange(rule, v) then 1.0 else 0.0
    ensures !v.Num? ==> score == 0.0
  {
    if !v.Num? then 0.0
    else if rule.hi > rule.lo then
      var x := (v.n - rule.lo) / (rule.hi - rule.lo);
      QuotientTimes(v.n - rule.lo, rule.hi - rule.lo);
      RatioWithin(x, rule.hi - rule.lo, v.n - rule.lo);
      if x < 0.0 then 0.0 else if x > 1.0 then 1.0 else x
    else if v.n == rule.lo then 1.0 else 0.0
  }

  lemma RatioBelow(x: real, width: real, product: real)
    requires width > 0.0 && x * width == product && product <= 0.0
    ensures x <= 0.0
  {
  }

  lemma RatioAbove(x: real, width: real, product: real)
    requires width > 0.0 && x * width == product && product >= width
    ensures x >= 1.0
  {
  }

  lemma RatioWithin(x: real, width: real, product: real)
    requires width > 0.0 && x * width == product
    ensures 0.0 <= product <= width ==> 0.0 <= x <= 1.0
  {
  }

  lemma QuotientTimes(distance: real, width: real)
    requires width > 0.0
    ensures distance / width * width == distance
  {
  }

  /** At or below the range the score is 0, at or above it 1. */
  lemma NormalizeClamps(rule: ScoringRule, v: Value)
    requires v.Num? && rule.lo < rule.hi
    ensures v.n <= rule.lo ==> Normalize(rule, v) == 0.0
    ensures v.n >= rule.hi ==> Normalize(rule, v) == 1.0
  {
    var width, distance := rule.hi - rule.lo, v.n - rule.lo;
    QuotientTimes(distance, width);
    if v.n <= rule.lo {
      RatioBelow(distance / width, width, distance);
    } else if v.n >= rule.hi {
      RatioAbove(distance / width, width, distance);
    }
  }

  /** A binary score needs a condition, and one that compiles. */
  function MeetsCondition(rule: ScoringRule, v: Value): Result<bool, Trouble> {
    if rule.condition == "" then Failure(EvaluationError)
    else
      match CondTokenizer.Compile(rule.condition)
      case Failure(_) => Failure(EvaluationError)
      case Success(t) => Success(CondEval.Meets(t, v))
  }

  /** Stops at the first value that fails, as all() does. */
  function AllMeet(rule: ScoringRule, vs: seq<Value>): Result<bool, Trouble> {
    if vs == [] then Success(true)
    else
      match MeetsCondition(rule, vs[0])
      case Failure(e) => Failure(e)
      case Success(b) => if b then AllMeet(rule, vs[1..]) else Success(false)
  }

  function IndexOf(s: string, xs: seq<string>): (i: nat)
    ensures i <= |xs| && (i < |xs| ==> xs[i] == s) && (i == |xs| <==> s !in xs)
  {
    if xs == [] || xs[0] == s then 0 else 1 + IndexOf(s, xs[1..])
  }

  function Norms(rule: ScoringRule, vs: seq<Value>): seq<real>
    requires ValidRule(rule)
  {
    seq(|vs|, i requires 0 <= i < |vs| => Normalize(rule, vs[i]))
  }

  function CategoryScore(categories: seq<string>, text: Option<string>): (real, bool) {
    if text.Some? && text.value in categories then
      var i := IndexOf(text.value, categories);
      (if |categories| > 1 then i as real / (|categories| - 1) as real else 1.0, true)
    else (0.0, false)
  }

  /** Scores a raw value; show renders a value as text for categorical scoring. */
  function ScoreRaw(rule: ScoringRule, raw: Raw, show: Value -> string): Scored
    requires ValidRule(rule)
  {
    match (raw, rule.kind)
    case (Many(vs), Binary) =>
      (match AllMeet(rule, vs)
       case Failure(e) => Failure(e)
       case Success(b) => Success((Some(if b then 1.0 else 0.0), b)))
    case (Many(vs), Numeric) =>
      if vs == [] then Failure(Crash)
      else Success((Some(Sum(Norms(rule, vs)) / |vs| as real), forall v | v in vs :: InRange(rule, v)))
    case (Many(_), Categorical) => Failure(EvaluationError)
    case (One(v), Binary) =>
      (match MeetsCondition(rule, v)
       case Failure(e) => Failure(e)
       case Success(b) => Success((Some(if b then 1.0 else 0.0), b)))
    case (One(v), Numeric) => Success((Some(Normalize(rule, v)), InRange(rule, v)))
    case (One(v), Categorical) =>
      var (score, passed) := CategoryScore(rule.categories, if v.Missing? then None else Some(show(v)));
      Success((Some(score), passed))
  }

  function Status(passed: bool): CaseStatus { if passed then Pass else Fail }

  function ErrorScore(metric: string, caseId: string, retry: bool): (s: CaseScore)
    ensures WellScored(s)
  {
    CaseScore(metric, caseId, None, false, Error, retry)
  }

  /** The explicit decision when nothing was observed. */
  function MissingScore(metric: string, caseId: string, onMissing: OnMissing, retry: bool): (s: CaseScore)
    ensures WellScored(s) && s.metric == metric && s.caseId == caseId && s.onRetryOverride == retry
    ensures !s.status.Error? && (s.status.Skipped? <==> onMissing.MissSkip?) && (s.passed <==> onMissing.MissPass?)
    ensures s.score.Some? ==> s.score.value == if s.passed then 1.0 else 0.0
  {
    match onMissing
    case MissPass => CaseScore(metric, caseId, Some(1.0), true, Pass, retry)
    case MissSkip => CaseScore(metric, caseId, None, false, Skipped, retry)
    case MissFail => CaseScore(metric, caseId, Some(0.0), false, Fail, retry)
  }

  /** Scoring one attempt's raw value: an evaluation error is an ERROR result, a crash is not a result. */
  function ScoreCase(metric: string, caseId: string, rule: ScoringRule, raw: Raw, show: Value -> string, retry: bool)
    : Option<CaseScore>
    requires ValidRule(rule)
  {
    match ScoreRaw(rule, raw, show)
    case Success((score, passed)) => Some(CaseScore(metric, caseId, score, passed, Status(passed), retry))
    case Failure(EvaluationError) => Some(ErrorScore(metric, caseId, retry))
    case Failure(Crash) => None
  }

  /** What a custom evaluator returns: a finite number and a list of event ids, each None if it is anything else. */
  datatype CustomResult = CustomResult(number: Option<real>, refs: Option<seq<string>>)

  /** A custom result counts under a rule that states a range, if its number is in range and it refers to selected events only. */
  predicate Acceptable(rule: ScoringRule, ranged: bool, result: CustomResult, selected: seq<string>) {
    && result.number.Some? && ranged && InRange(rule, CondEval.Num(result.number.value))
    && result.refs.Some? && forall ref | ref in result.refs.value :: ref in selected
  }

  /** A custom evaluator's result: unless acceptable an ERROR; the pass line is its own threshold. */
  function ScoreCustom(metric: string, caseId: string, rule: ScoringRule, ranged: bool, result: CustomResult,
      selected: seq<string>, threshold: real, retry: bool)
    : (s: CaseScore)
    requires ValidRule(rule)
    ensures WellScored(s) && s.metric == metric && s.caseId == caseId && s.onRetryOverride == retry
    ensures s.status.Error? <==> !Acceptable(rule, ranged, result, selected)
    ensures s.status.Pass? <==> Acceptable(rule, ranged, result, selected) && result.number.value >= threshold
    ensures s.score.Some? && rule.lo < rule.hi ==> s.score.value * (rule.hi - rule.lo) == result.number.value - rule.lo
    ensures !s.status.Skipped?
  {
    if result.number.None? || !ranged || !(rule.lo <= result.number.value <= rule.hi) then ErrorScore(metric, caseId, retry)
    else if result.refs.None? || exists ref | ref in result.refs.value :: ref !in selected then ErrorScore(metric, caseId, retry)
    else
      var passed := result.number.value >= threshold;
      CaseScore(metric, caseId, Some(Normalize(rule, CondEval.Num(result.number.value))), passed, Status(passed), retry)
  }

  lemma ListScoreBounds(rule: ScoringRule, vs: seq<Value>)
    requires ValidRule(rule) && vs != []
    ensures 0.0 <= Sum(Norms(rule, vs)) / |vs| as real <= 1.0
  {
    MeanBounds(Norms(rule, vs));
  }

  lemma CategoryScoreBounds(categories: seq<string>, text: Option<string>)
    ensures 0.0 <= CategoryScore(categories, text).0 <= 1.0
  {
    if text.Some? && text.value in categories && |categories| > 1 {
      RatioBounds(IndexOf(text.value, categories) as real, (|categories| - 1) as real);
    }
  }

  /** Every score that scoring produces is well formed. */
  lemma ScoresAreWellFormed(metric: string, caseId: string, rule: ScoringRule, raw: Raw, show: Value -> string, retry: bool)
    requires ValidRule(rule)
    ensures var s := ScoreCase(metric, caseId, rule, raw, show, retry); s.Some? ==> WellScored(s.value)
  {
    match (raw, rule.kind)
    case (Many(vs), Numeric) =>
      if vs != [] {
        ListScoreBounds(rule, vs);
      }
    case (One(v), Categorical) => CategoryScoreBounds(rule.categories, if v.Missing? then None else Some(show(v)));
    case _ =>
  }

  /** Scoring crashes on exactly one kind of input: numeric scoring of an empty list. */
  lemma {:induction false} CrashesExactly(metric: string, caseId: string, rule: ScoringRule, raw: Raw,
      show: Value -> string, retry: bool)
    requires ValidRule(rule)
    ensures ScoreCase(metric, caseId, rule, raw, show, retry).None? <==> rule.kind.Numeric? && raw == Many([])
  {
    if raw.Many? && rule.kind.Binary? {
      AllMeetNeverCrashes(rule, raw.values);
    }
  }

  lemma {:induction false} AllMeetNeverCrashes(rule: ScoringRule, vs: seq<Value>)
    ensures AllMeet(rule, vs) != Failure(Crash)
  {
    if vs != [] {
      AllMeetNeverCrashes(rule, vs[1..]);
    }
  }

  // ---- What each kind of scoring says ----------------------------------------------------------------

  /** A verdict with its score. */
  ghost predicate ScoredAs(s: Option<CaseScore>, metric: string, caseId: string, retry: bool, score: real, passed: bool) {
    s == Some(CaseScore(metric, caseId, Some(score), passed, if passed then Pass else Fail, retry))
  }

  ghost predicate Errored(s: Option<CaseScore>, metric: string, caseId: string, retry: bool) {
    s == Some(CaseScore(metric, caseId, None, false, Error, retry))
  }

  /** The rule has no condition to ask, or one that does not compile. */
  predicate NoCondition(rule: ScoringRule) { rule.condition == "" || CondTokenizer.Compile(rule.condition).Failure? }

  lemma {:induction false} AllMeetIs(rule: ScoringRule, vs: seq<Value>)
    requires !NoCondition(rule)
    ensures AllMeet(rule, vs) == Success(forall v | v in vs :: CondEval.Meets(CondTokenizer.Compile(rule.condition).value, v))
  {
    if vs != [] {
      AllMeetIs(rule, vs[1..]);
      assert forall v :: v in vs <==> v == vs[0] || v in vs[1..];
    }
  }

  /**
   Binary scoring passes exactly what meets the condition, every value of a list, and scores 1 or 0.
   Without a condition that compiles it is an ERROR, unless there is nothing to ask.
  */
  lemma BinaryScoring(metric: string, caseId: string, rule: ScoringRule, v: Value, vs: seq<Value>,
      show: Value -> string, retry: bool)
    requires ValidRule(rule) && rule.kind.Binary?
    ensures var one, many := ScoreCase(metric, caseId, rule, One(v), show, retry), ScoreCase(metric, caseId, rule, Many(vs), show, retry);
            if NoCondition(rule) then
              && Errored(one, metric, caseId, retry)
              && (vs != [] ==> Errored(many, metric, caseId, retry))
              && (vs == [] ==> ScoredAs(many, metric, caseId, retry, 1.0, true))
            else
              var t := CondTokenizer.Compile(rule.condition).value;
              && (CondEval.Meets(t, v) ==> ScoredAs(one, metric, caseId, retry, 1.0, true))
              && (!CondEval.Meets(t, v) ==> ScoredAs(one, metric, caseId, retry, 0.0, false))
              && ((forall x | x in vs :: CondEval.Meets(t, x)) ==> ScoredAs(many, metric, caseId, retry, 1.0, true))
              && ((exists x | x in vs :: !CondEval.Meets(t, x)) ==> ScoredAs(many, metric, caseId, retry, 0.0, false))
  {
    if !NoCondition(rule) {
      AllMeetIs(rule, vs);
    }
    hide CondTokenizer.Compile, CondEval.Meets;
  }

  /** Numeric scoring passes exactly a number in the range. */
  lemma NumericScoring(metric: string, caseId: string, rule: ScoringRule, v: Value, show: Value -> string, retry: bool)
    requires ValidRule(rule) && rule.kind.Numeric?
    ensures ScoredAs(ScoreCase(metric, caseId, rule, One(v), show, retry), metric, caseId, retry, Normalize(rule, v),
                     v.Num? && rule.lo <= v.n <= rule.hi)
  {
    hide Normalize;
  }

  /** A list passes exactly if all its values are numbers in the range, and its score is their mean. */
  lemma NumericLists(metric: string, caseId: string, rule: ScoringRule, vs: seq<Value>, show: Value -> string, retry: bool)
    requires ValidRule(rule) && rule.kind.Numeric? && vs != []
    ensures var s := ScoreCase(metric, caseId, rule, Many(vs), show, retry);
            && s.Some? && s.value.score.Some?
            && ScoredAs(s, metric, caseId, retry, s.value.score.value, forall x | x in vs :: x.Num? && rule.lo <= x.n <= rule.hi)
            && s.value.score.value * |vs| as real == Sum(seq(|vs|, i requires 0 <= i < |vs| => Normalize(rule, vs[i])))
  {
    var norms := seq(|vs|, i requires 0 <= i < |vs| => Normalize(rule, vs[i]));
    assert Norms(rule, vs) == norms;
    QuotientTimes(Sum(norms), |vs| as real);
    hide Normalize, Sum, Norms;
    assert (forall x | x in vs :: InRange(rule, x)) <==> forall x | x in vs :: x.Num? && rule.lo <= x.n <= rule.hi;
  }

  /** The category stands at this place, and at none before it. */
  ghost predicate FirstAt(categories: seq<string>, text: string, i: nat) {
    i < |categories| && categories[i] == text && text !in categories[..i]
  }

  lemma {:induction false} IndexIsFirst(text: string, categories: seq<string>)
    requires text in categories
    ensures FirstAt(categories, text, IndexOf(text, categories))
  {
    if categories[0] != text {
      IndexIsFirst(text, categories[1..]);
      var i := IndexOf(text, categories[1..]);
      assert categories[..i + 1] == [categories[0]] + categories[1..][..i];
    }
  }

  /** The share of the way from the first category to the last; 1 for the only one. */
  ghost predicate ScoresPlace(categories: seq<string>, text: string, score: real) {
    exists i: nat :: FirstAt(categories, text, i)
                     && (if |categories| == 1 then score == 1.0 else score * (|categories| - 1) as real == i as real)
  }

  lemma ListedCategory(categories: seq<string>, text: string)
    requires text in categories
    ensures CategoryScore(categories, Some(text)).1 && ScoresPlace(categories, text, CategoryScore(categories, Some(text)).0)
  {
    var i := IndexOf(text, categories);
    IndexIsFirst(text, categories);
    if |categories| > 1 {
      QuotientTimes(i as real, (|categories| - 1) as real);
    }
  }

  /**
   Categorical scoring passes exactly a value whose text is listed, and scores it by its first place
   from 0 to 1, the only category by 1; anything else scores 0, and a list of values is an ERROR.
  */
  lemma CategoricalScoring(metric: string, caseId: string, rule: ScoringRule, v: Value, vs: seq<Value>,
      show: Value -> string, retry: bool)
    requires ValidRule(rule) && rule.kind.Categorical?
    ensures Errored(ScoreCase(metric, caseId, rule, Many(vs), show, retry), metric, caseId, retry)
    ensures var s := ScoreCase(metric, caseId, rule, One(v), show, retry);
            if v.Missing? || show(v) !in rule.categories then ScoredAs(s, metric, caseId, retry, 0.0, false)
            else
              && s.Some? && s.value.score.Some?
              && ScoredAs(s, metric, caseId, retry, s.value.score.value, true)
              && ScoresPlace(rule.categories, show(v), s.value.score.value)
  {
    if !v.Missing? && show(v) in rule.categories {
      ListedCategory(rule.categories, show(v));
      hide CategoryScore, ScoresPlace;
    }
  }

  /** ERROR comes of exactly two things: a list for categories, and a condition that is asked for but cannot be. */
  lemma ErrorsExactly(metric: string, caseId: string, rule: ScoringRule, raw: Raw, show: Value -> string, retry: bool)
    requires ValidRule(rule)
    ensures Errored(ScoreCase(metric, caseId, rule, raw, show, retry), metric, caseId, retry) <==>
              || (rule.kind.Categorical? && raw.Many?)
              || (rule.kind.Binary? && NoCondition(rule) && raw != Many([]))
  {
    var v, vs := if raw.One? then raw.value else CondEval.Missing, if raw.Many? then raw.values else [];
    hide ScoreCase, NoCondition;
    match rule.kind
    case Binary => BinaryScoring(metric, caseId, rule, v, vs, show, retry);
    case Numeric =>
      NumericScoring(metric, caseId, rule, v, show, retry);
      if vs != [] {
        NumericLists(metric, caseId, rule, vs, show, retry);
      }
      CrashesExactly(metric, caseId, rule, raw, show, retry);
    case Categorical => CategoricalScoring(metric, caseId, rule, v, vs, show, retry);
  }
}

/**
  benchmarks/harness/model.py (`TokenUsage`, its addition) and `aggregate_telemetry` of
  benchmarks/harness/execution.py.
 */
module TokenModel {
  import opened Prelude
  import opened JsonValues
  import opened Rounding

  datatype TokenUsage = TokenUsage(
    inputTokens: int, outputTokens: int, contextTokens: int, taskTokens: int, requests: int,
    usd: Option<real>,
    cachedTokens: int, cachedInputTokens: int, cacheWriteInputTokens: int,
    reasoningOutputTokens: Option<int>, cacheAdjustedInputTokens: int,
    pricingId: Json, provider: Json, model: Json,
    toolCalls: int, elapsedMs: real)
  {
    /** `self + other` */
    function Plus(other: TokenUsage): TokenUsage {
      TokenUsage(
        inputTokens + other.inputTokens, outputTokens + other.outputTokens,
        contextTokens + other.contextTokens, taskTokens + other.taskTokens, requests + other.requests,
        AddCost(usd, other.usd),
        cachedTokens + other.cachedTokens, cachedInputTokens + other.cachedInputTokens,
        cacheWriteInputTokens + other.cacheWriteInputTokens,
        AddCount(reasoningOutputTokens, other.reasoningOutputTokens),
        cacheAdjustedInputTokens + other.cacheAdjustedInputTokens,
        Or(pricingId, other.pricingId), Or(provider, other.provider), Or(model, other.model),
        toolCalls + other.toolCalls, AddElapsed(elapsedMs, other.elapsedMs))
    }
  }

  function AddCost(a: Option<real>, b: Option<real>): Option<real> {
    if a.Some? && b.Some? then Some(Round(a.value + b.value, MICROS)) else None
  }

  function AddCount(a: Option<int>, b: Option<int>): Option<int> {
    if a.Some? && b.Some? then Some(a.value + b.value) else None
  }

  function AddElapsed(a: real, b: real): real {
    Round(a + b, MILLIS)
  }

  /** `TokenUsage()` */
  const NOTHING := TokenUsage(0, 0, 0, 0, 0, Some(0.0), 0, 0, 0, Some(0), 0, Null, Null, Null, 0, 0.0)

  /** The value of `aggregate_telemetry`: a left fold of `+` from `TokenUsage()`. */
  function Aggregate(requests: seq<TokenUsage>): TokenUsage {
    if requests == [] then NOTHING else Aggregate(Init(requests)).Plus(Last(requests))
  }

  /** `aggregate_telemetry` */
  method AggregateTelemetry(requests: seq<TokenUsage>) returns (total: TokenUsage)
    ensures total == Aggregate(requests)
  {
    if requests == [] {
      return NOTHING;
    }
    total := NOTHING;
    for i := 0 to |requests|
      invariant total == Aggregate(requests[..i])
    {
      assert Init(requests[..i + 1]) == requests[..i];
      total := total.Plus(requests[i]);
    }
    assert requests[..|requests|] == requests;
  }

  lemma NothingAggregated()
    ensures Aggregate([]) == NOTHING
  {
  }

  lemma AggregateStep(requests: seq<TokenUsage>)
    requires requests != []
    ensures Aggregate(requests) == Aggregate(Init(requests)).Plus(Last(requests))
  {
    hide TokenUsage.Plus;
  }

  // ---------------------------------------------------------------- rounding and the fold

  /** Both rounded fields already are multiples of their unit. */
  predicate Rounded(u: TokenUsage) {
    Quantized(u.elapsedMs, MILLIS) && (u.usd.Some? ==> Quantized(u.usd.value, MICROS))
  }

  lemma SumIsRounded(a: TokenUsage, b: TokenUsage)
    ensures Rounded(a.Plus(b))
  {
    RoundedIsQuantized(a.elapsedMs + b.elapsedMs, MILLIS);
    if a.usd.Some? && b.usd.Some? {
      RoundedIsQuantized(a.usd.value + b.usd.value, MICROS);
    }
  }

  lemma AggregateIsRounded(requests: seq<TokenUsage>)
    ensures Rounded(Aggregate(requests))
  {
    if requests != [] {
      SumIsRounded(Aggregate(Init(requests)), Last(requests));
    }
  }

  /** What an addition leaves alone of rounding. */
  function Unrounded(u: TokenUsage): TokenUsage {
    u.(elapsedMs := 0.0, usd := if u.usd.Some? then Some(0.0) else None)
  }

  lemma UnroundedSum(a: TokenUsage, b: TokenUsage, c: TokenUsage)
    ensures Unrounded(a.Plus(b).Plus(c)) == Unrounded(a.Plus(b.Plus(c)))
    ensures Unrounded(a.Plus(NOTHING.Plus(c))) == Unrounded(a.Plus(c))
  {
    hide Round;
  }

  lemma UnroundedStep(a: TokenUsage, b: TokenUsage, c: TokenUsage)
    requires Unrounded(a) == Unrounded(b)
    ensures Unrounded(a.Plus(c)) == Unrounded(b.Plus(c))
  {
    hide Round;
    var x, y := Unrounded(a), Unrounded(b);
    assert a == x.(elapsedMs := a.elapsedMs, usd := a.usd) && b == y.(elapsedMs := b.elapsedMs, usd := b.usd);
    assert a.usd.Some? <==> x.usd.Some?;
    assert b.usd.Some? <==> y.usd.Some?;
  }

  /** But for the rounded cost and duration, a batch split anywhere aggregates to the sum of its parts. */
  lemma {:induction false} UnroundedOfConcat(xs: seq<TokenUsage>, ys: seq<TokenUsage>)
    requires ys != []
    ensures Unrounded(Aggregate(xs + ys)) == Unrounded(Aggregate(xs).Plus(Aggregate(ys)))
  {
    hide TokenUsage.Plus, Unrounded;
    var front, last := Init(ys), Last(ys);
    assert Init(xs + ys) == xs + front && Last(xs + ys) == last;
    if front == [] {
      assert xs + front == xs;
      UnroundedSum(Aggregate(xs), NOTHING, last);
    } else {
      UnroundedOfConcat(xs, front);
      UnroundedStep(Aggregate(xs + front), Aggregate(xs).Plus(Aggregate(front)), last);
      UnroundedSum(Aggregate(xs), Aggregate(front), last);
    }
  }

  predicate AllPriced(requests: seq<TokenUsage>) {
    forall i :: 0 <= i < |requests| ==> requests[i].usd.Some?
  }

  function Durations(requests: seq<TokenUsage>): seq<real> {
    Map(requests, (u: TokenUsage) => u.elapsedMs)
  }

  function Costs(requests: seq<TokenUsage>): seq<real> {
    Map(requests, (u: TokenUsage) => if u.usd.Some? then u.usd.value else 0.0)
  }

  lemma {:induction false} DurationOfConcat(xs: seq<TokenUsage>, ys: seq<TokenUsage>)
    ensures Aggregate(xs + ys).elapsedMs == RoundedFold(Aggregate(xs).elapsedMs, Durations(ys), MILLIS)
  {
    hide Round;
    if ys == [] {
      assert xs + ys == xs;
    } else {
      assert Init(xs + ys) == xs + Init(ys);
      assert Init(Durations(ys)) == Durations(Init(ys));
      DurationOfConcat(xs, Init(ys));
    }
  }

  lemma {:induction false} CostOfConcat(xs: seq<TokenUsage>, ys: seq<TokenUsage>)
    requires AllPriced(ys) && Aggregate(xs).usd.Some?
    ensures Aggregate(xs + ys).usd == Some(RoundedFold(Aggregate(xs).usd.value, Costs(ys), MICROS))
  {
    hide Round;
    if ys == [] {
      assert xs + ys == xs;
    } else {
      assert Init(xs + ys) == xs + Init(ys);
      assert Init(Costs(ys)) == Costs(Init(ys));
      CostOfConcat(xs, Init(ys));
    }
  }

  /** No duration of the batch is a tie, and no cost either unless some cost of the batch is absent. */
  predicate SplitsExactly(ys: seq<TokenUsage>) {
    !SomeTie(Durations(ys), MILLIS) && (AllPriced(ys) ==> !SomeTie(Costs(ys), MICROS))
  }

  lemma DurationOfSplit(xs: seq<TokenUsage>, ys: seq<TokenUsage>)
    requires !SomeTie(Durations(ys), MILLIS)
    ensures Aggregate(xs + ys).elapsedMs == Aggregate(xs).Plus(Aggregate(ys)).elapsedMs
  {
    hide Round, RoundedFold, SomeTie, Aggregate, Quantized;
    DurationOfConcat(xs, ys);
    DurationOfConcat([], ys);
    assert [] + ys == ys;
    NothingAggregated();
    assert Quantized(Aggregate(xs).elapsedMs, MILLIS) by { AggregateIsRounded(xs); }
    FoldOntoStart(Durations(ys), MILLIS);
  }

  lemma CostOfSplit(xs: seq<TokenUsage>, ys: seq<TokenUsage>)
    requires AllPriced(ys) ==> !SomeTie(Costs(ys), MICROS)
    ensures Aggregate(xs + ys).usd == Aggregate(xs).Plus(Aggregate(ys)).usd
  {
    hide Round, RoundedFold, SomeTie, Aggregate, Quantized;
    AbsenceOfConcat(xs, ys);
    NothingAggregated();
    if Aggregate(xs).usd.Some? && AllPriced(ys) {
      CostOfConcat(xs, ys);
      CostOfConcat([], ys);
      assert [] + ys == ys;
      assert Quantized(Aggregate(xs).usd.value, MICROS) by { AggregateIsRounded(xs); }
      FoldOntoStart(Costs(ys), MICROS);
    }
  }

  lemma {:induction false} AbsenceOfConcat(xs: seq<TokenUsage>, ys: seq<TokenUsage>)
    ensures Aggregate(xs + ys).usd.Some? <==> Aggregate(xs).usd.Some? && AllPriced(ys)
    ensures Aggregate(ys).usd.Some? <==> AllPriced(ys)
  {
    if ys == [] {
      assert xs + ys == xs;
    } else {
      assert Init(xs + ys) == xs + Init(ys);
      AbsenceOfConcat(xs, Init(ys));
      assert AllPriced(ys) <==> AllPriced(Init(ys)) && Last(ys).usd.Some? by {
        assert forall i :: 0 <= i < |ys| - 1 ==> Init(ys)[i] == ys[i];
      }
    }
  }

  /** The fold is a homomorphism: a batch split anywhere aggregates to the sum of its parts. */
  lemma AggregateOfConcat(xs: seq<TokenUsage>, ys: seq<TokenUsage>)
    requires ys != [] && SplitsExactly(ys)
    ensures Aggregate(xs + ys) == Aggregate(xs).Plus(Aggregate(ys))
  {
    hide Aggregate, TokenUsage.Plus, SomeTie, AllPriced;
    UnroundedOfConcat(xs, ys);
    DurationOfSplit(xs, ys);
    CostOfSplit(xs, ys);
    SameButRounding(Aggregate(xs + ys), Aggregate(xs).Plus(Aggregate(ys)));
  }

  lemma SameButRounding(a: TokenUsage, b: TokenUsage)
    requires Unrounded(a) == Unrounded(b) && a.elapsedMs == b.elapsedMs && a.usd == b.usd
    ensures a == b
  {
    assert a == Unrounded(a).(elapsedMs := a.elapsedMs, usd := a.usd);
    assert b == Unrounded(b).(elapsedMs := b.elapsedMs, usd := b.usd);
  }

  /** One unit of cost and of duration: the request whose place decides how a later tie is rounded. */
  const UNIT := NOTHING.(elapsedMs := 1.0 / MILLIS, usd := Some(1.0 / MICROS))

  lemma UnitAggregate()
    ensures Aggregate([UNIT]).elapsedMs == 1.0 / MILLIS && Aggregate([UNIT]).usd == Some(1.0 / MICROS)
  {
    assert Init([UNIT]) == [];
    assert 0.0 + 1.0 / MILLIS == 1.0 / MILLIS && 0.0 + 1.0 / MICROS == 1.0 / MICROS;
    assert Quantized(1.0 / MILLIS, MILLIS) && Quantized(1.0 / MICROS, MICROS) by { QuotientTimes(1, MILLIS); QuotientTimes(1, MICROS); }
    RoundKeepsQuantized(1.0 / MILLIS, MILLIS);
    RoundKeepsQuantized(1.0 / MICROS, MICROS);
  }

  /** After one unit, a batch that does not split exactly shows it. */
  lemma TieBreaksSplit(ys: seq<TokenUsage>)
    requires !SplitsExactly(ys)
    ensures Aggregate([UNIT] + ys) != Aggregate([UNIT]).Plus(Aggregate(ys))
  {
    hide Round, RoundedFold, SomeTie, Aggregate;
    UnitAggregate();
    NothingAggregated();
    assert [] + ys == ys;
    if SomeTie(Durations(ys), MILLIS) {
      DurationOfConcat([UNIT], ys);
      DurationOfConcat([], ys);
      FoldOntoStart(Durations(ys), MILLIS);
    } else {
      CostOfConcat([UNIT], ys);
      CostOfConcat([], ys);
      FoldOntoStart(Costs(ys), MICROS);
    }
  }

  /**
    Splitting a batch off is exact for every batch before it if and only if no duration of it is a
    tie and, unless some cost of it is absent, no cost of it is a tie.
   */
  lemma SplitIsExactIffTieFree(ys: seq<TokenUsage>)
    requires ys != []
    ensures (forall xs: seq<TokenUsage> :: Aggregate(xs + ys) == Aggregate(xs).Plus(Aggregate(ys))) <==>
      && (forall i :: 0 <= i < |ys| ==> !Tie(ys[i].elapsedMs, MILLIS))
      && ((exists i :: 0 <= i < |ys| && ys[i].usd.None?) || forall i :: 0 <= i < |ys| ==> !Tie(ys[i].usd.value, MICROS))
  {
    hide Aggregate, TokenUsage.Plus, Tie;
    SplitsExactlyByElement(ys);
    if SplitsExactly(ys) {
      forall xs: seq<TokenUsage>
        ensures Aggregate(xs + ys) == Aggregate(xs).Plus(Aggregate(ys))
      {
        AggregateOfConcat(xs, ys);
      }
    } else {
      TieBreaksSplit(ys);
    }
  }

  lemma SplitsExactlyByElement(ys: seq<TokenUsage>)
    ensures SplitsExactly(ys) <==>
      && (forall i :: 0 <= i < |ys| ==> !Tie(ys[i].elapsedMs, MILLIS))
      && ((exists i :: 0 <= i < |ys| && ys[i].usd.None?) || forall i :: 0 <= i < |ys| ==> !Tie(ys[i].usd.value, MICROS))
  {
    hide Tie;
    var durations, costs := Durations(ys), Costs(ys);
    assert forall i :: 0 <= i < |ys| ==> durations[i] == ys[i].elapsedMs;
    assert forall i :: 0 <= i < |ys| && ys[i].usd.Some? ==> costs[i] == ys[i].usd.value;
  }

  /** A cost of half a micro-dollar, after one micro-dollar: rounding the batch and rounding the parts differ. */
  lemma HalfMicroDollarSplitsInexactly()
    ensures var half := NOTHING.(usd := Some(0.0000005));
      Tie(half.usd.value, MICROS) && Aggregate([UNIT] + [half]) != Aggregate([UNIT]).Plus(Aggregate([half]))
  {
    hide Aggregate, TokenUsage.Plus;
    var half := NOTHING.(usd := Some(0.0000005));
    assert half.usd.value * MICROS == 0.5;
    assert Costs([half])[0] == 0.0000005;
    TieBreaksSplit([half]);
  }

  /** Next to an absent cost the same half micro-dollar is harmless. */
  lemma AbsentCostHidesTies(xs: seq<TokenUsage>)
    ensures var ys := [NOTHING.(usd := Some(0.0000005)), NOTHING.(usd := None)];
      Aggregate(xs + ys) == Aggregate(xs).Plus(Aggregate(ys))
  {
    hide Aggregate, TokenUsage.Plus;
    var ys := [NOTHING.(usd := Some(0.0000005)), NOTHING.(usd := None)];
    assert ys[1].usd.None?;
    SplitsExactlyByElement(ys);
    AggregateOfConcat(xs, ys);
  }

  // ---------------------------------------------------------------- tags

  /** One tag of each request. */
  type Column = TokenUsage -> Json

  /** The tag of the first request that has a truthy one, or else that of the last request. */
  function FirstTruthy(requests: seq<TokenUsage>, column: Column): Json {
    if requests == [] then Null
    else if Truthy(column(requests[0])) || |requests| == 1 then column(requests[0])
    else FirstTruthy(requests[1..], column)
  }

  lemma {:induction false} FirstTruthyAppended(requests: seq<TokenUsage>, u: TokenUsage, column: Column)
    ensures FirstTruthy(requests + [u], column) == Or(FirstTruthy(requests, column), column(u))
  {
    if |requests| > 1 {
      FirstTruthyAppended(requests[1..], u, column);
      assert (requests + [u])[1..] == requests[1..] + [u];
    } else if |requests| == 1 {
      assert (requests + [u])[1..] == [u];
    }
  }

  const PRICING: Column := (u: TokenUsage) => u.pricingId
  const PROVIDER: Column := (u: TokenUsage) => u.provider
  const MODEL: Column := (u: TokenUsage) => u.model

  /** Each tag of the total is that of the first request with a truthy one, or else that of the last request. */
  lemma {:induction false} TagsOfTotal(requests: seq<TokenUsage>)
    ensures Aggregate(requests).pricingId == FirstTruthy(requests, PRICING)
    ensures Aggregate(requests).provider == FirstTruthy(requests, PROVIDER)
    ensures Aggregate(requests).model == FirstTruthy(requests, MODEL)
  {
    hide FirstTruthy;
    if requests == [] {
      NoTag(PRICING);
      NoTag(PROVIDER);
      NoTag(MODEL);
    } else {
      TagsOfTotal(Init(requests));
      assert requests == Init(requests) + [Last(requests)];
      FirstTruthyAppended(Init(requests), Last(requests), PRICING);
      FirstTruthyAppended(Init(requests), Last(requests), PROVIDER);
      FirstTruthyAppended(Init(requests), Last(requests), MODEL);
    }
  }

  /** The first request with a truthy tag carries this one. */
  predicate NamesFirst(requests: seq<TokenUsage>, column: Column, tag: Json) {
    exists i :: 0 <= i < |requests| && column(requests[i]) == tag && forall j :: 0 <= j < i ==> !Truthy(column(requests[j]))
  }

  lemma {:induction false} FirstTruthyIsNamedFirst(requests: seq<TokenUsage>, column: Column, tag: Json)
    requires Truthy(tag)
    ensures FirstTruthy(requests, column) == tag <==> NamesFirst(requests, column, tag)
  {
    assert tag != Null;
    hide Truthy;
    if |requests| > 1 {
      var rest := requests[1..];
      FirstTruthyIsNamedFirst(rest, column, tag);
      if !Truthy(column(requests[0])) {
        if NamesFirst(rest, column, tag) {
          var i :| 0 <= i < |rest| && column(rest[i]) == tag && forall j :: 0 <= j < i ==> !Truthy(column(rest[j]));
          assert column(requests[i + 1]) == tag;
          forall j | 0 <= j < i + 1
            ensures !Truthy(column(requests[j]))
          {
            assert j > 0 ==> requests[j] == rest[j - 1];
          }
        }
        if NamesFirst(requests, column, tag) {
          var i :| 0 <= i < |requests| && column(requests[i]) == tag && forall j :: 0 <= j < i ==> !Truthy(column(requests[j]));
          assert column(rest[i - 1]) == tag;
          assert forall j :: 0 <= j < i - 1 ==> rest[j] == requests[j + 1];
        }
      } else if NamesFirst(requests, column, tag) {
        var i :| 0 <= i < |requests| && column(requests[i]) == tag && forall j :: 0 <= j < i ==> !Truthy(column(requests[j]));
        assert i == 0;
      }
    } else if |requests| == 1 {
      assert column(requests[0]) == tag ==> NamesFirst(requests, column, tag);
    }
  }

  lemma NoTag(column: Column)
    ensures FirstTruthy([], column) == Null
  {
  }

  /** Some request has a truthy tag, or the last request has none at all. */
  predicate TagSurvives(requests: seq<TokenUsage>, column: Column) {
    requests == [] || column(Last(requests)) == Null || exists i :: 0 <= i < |requests| && Truthy(column(requests[i]))
  }

  lemma {:induction false} TagSurvivesExactly(requests: seq<TokenUsage>, column: Column)
    ensures TagSurvives(requests, column) <==> Or(FirstTruthy(requests, column), Null) == FirstTruthy(requests, column)
  {
    if |requests| > 1 {
      TagSurvivesExactly(requests[1..], column);
      assert Last(requests[1..]) == Last(requests);
      assert forall i :: 0 < i < |requests| ==> requests[1..][i - 1] == requests[i];
    } else if |requests| == 1 {
      assert Last(requests) == requests[0];
    }
  }

  /** Adding an empty batch is exact if and only if each tag is truthy in some request or null in the last. */
  lemma EmptyBatchIsNeutral(xs: seq<TokenUsage>)
    ensures Aggregate(xs + []) == Aggregate(xs).Plus(Aggregate([])) <==>
      TagSurvives(xs, PRICING) && TagSurvives(xs, PROVIDER) && TagSurvives(xs, MODEL)
  {
    hide FirstTruthy, TagSurvives, Aggregate, PRICING, PROVIDER, MODEL;
    assert xs + [] == xs;
    NothingAggregated();
    AggregateIsRounded(xs);
    RoundKeepsQuantized(Aggregate(xs).elapsedMs, MILLIS);
    if Aggregate(xs).usd.Some? {
      RoundKeepsQuantized(Aggregate(xs).usd.value, MICROS);
    }
    TagsOfTotal(xs);
    TagSurvivesExactly(xs, PRICING);
    TagSurvivesExactly(xs, PROVIDER);
    TagSurvivesExactly(xs, MODEL);
  }

  /** An empty provider is lost to a null one when an empty batch is added. */
  lemma EmptyProviderIsLost()
    ensures var xs := [NOTHING.(provider := Str(""))];
      Aggregate(xs).provider == Str("") && Aggregate(xs).Plus(Aggregate([])).provider == Null
  {
    hide Round, Aggregate;
    NothingAggregated();
    AggregateOfOne(NOTHING.(provider := Str("")));
  }

  lemma AggregateOfOne(u: TokenUsage)
    ensures Aggregate([u]) == NOTHING.Plus(u)
  {
    hide TokenUsage.Plus;
    assert Init([u]) == [];
  }

  /** A cost or a reasoning count is absent from the total exactly when some request lacks it. */
  lemma {:induction false} AbsenceIsExact(requests: seq<TokenUsage>)
    ensures Aggregate(requests).usd.None? <==> exists i :: 0 <= i < |requests| && requests[i].usd.None?
    ensures Aggregate(requests).reasoningOutputTokens.None? <==> exists i :: 0 <= i < |requests| && requests[i].reasoningOutputTokens.None?
  {
    if requests != [] {
      var front := Init(requests);
      AbsenceIsExact(front);
      assert forall i :: 0 <= i < |front| ==> front[i] == requests[i];
      assert requests[|front|] == Last(requests);
    }
  }

  /** The sum of one count over all requests. */
  function SumOf(requests: seq<TokenUsage>, count: TokenUsage -> int): int {
    if requests == [] then 0 else SumOf(Init(requests), count) + count(Last(requests))
  }

  function Reasoning(u: TokenUsage): int {
    if u.reasoningOutputTokens.Some? then u.reasoningOutputTokens.value else 0
  }

  /** Every count of the total is the sum of that count over the requests. */
  lemma {:induction false} CountsAreSums(requests: seq<TokenUsage>)
    ensures var t := Aggregate(requests);
      && t.inputTokens == SumOf(requests, (u: TokenUsage) => u.inputTokens) && t.outputTokens == SumOf(requests, (u: TokenUsage) => u.outputTokens)
      && t.contextTokens == SumOf(requests, (u: TokenUsage) => u.contextTokens) && t.taskTokens == SumOf(requests, (u: TokenUsage) => u.taskTokens)
      && t.requests == SumOf(requests, (u: TokenUsage) => u.requests) && t.cachedTokens == SumOf(requests, (u: TokenUsage) => u.cachedTokens)
      && t.cachedInputTokens == SumOf(requests, (u: TokenUsage) => u.cachedInputTokens)
      && t.cacheWriteInputTokens == SumOf(requests, (u: TokenUsage) => u.cacheWriteInputTokens)
      && t.cacheAdjustedInputTokens == SumOf(requests, (u: TokenUsage) => u.cacheAdjustedInputTokens)
      && t.toolCalls == SumOf(requests, (u: TokenUsage) => u.toolCalls)
      && (t.reasoningOutputTokens.Some? ==> t.reasoningOutputTokens.value == SumOf(requests, Reasoning))
  {
    if requests != [] {
      CountsAreSums(Init(requests));
    }
  }

  /** The duration of the total, and its cost if there is one, lie within half a unit per request of the exact sums. */
  lemma MeasuresAreNearSums(requests: seq<TokenUsage>)
    ensures var t := Aggregate(requests);
      && Near(t.elapsedMs, Total(Durations(requests)), MILLIS, |requests|)
      && (t.usd.Some? ==> Near(t.usd.value, Total(Costs(requests)), MICROS, |requests|))
  {
    hide Aggregate, RoundedFold, Total, Near, AllPriced;
    assert [] + requests == requests;
    NothingAggregated();
    DurationOfConcat([], requests);
    FoldIsNearTotal(Durations(requests), MILLIS);
    AbsenceOfConcat([], requests);
    if AllPriced(requests) {
      CostOfConcat([], requests);
      FoldIsNearTotal(Costs(requests), MICROS);
    }
  }

  /** Three values that every request of a run repeats. */
  datatype Tags = Tags(pricingId: Json, provider: Json, model: Json)

  function TagsOf(u: TokenUsage): Tags {
    Tags(u.pricingId, u.provider, u.model)
  }

  /** If every request carries the same pricing, provider and model, so does the total. */
  lemma {:induction false} SharedTagsAreKept(requests: seq<TokenUsage>, tags: Tags)
    requires requests != [] && forall i :: 0 <= i < |requests| ==> TagsOf(requests[i]) == tags
    ensures TagsOf(Aggregate(requests)) == tags
  {
    if |requests| > 1 {
      SharedTagsAreKept(Init(requests), tags);
    } else {
      assert Init(requests) == [];
    }
  }
}

/**
  The v2 telemetry wire: what benchmarks/harness/codex_real_runner_v2.py emits, and
  `parse_token_usage_v2` (execution.py) and the telemetry section of `parse_response_v2` (runners.py).
 */
module Runners {
  import opened Prelude
  import opened JsonValues
  import opened TokenModel
  import opened Execution

  // ---------------------------------------------------------------- sender

  function CountOrNull(o: Option<int>): Json {
    if o.Some? then Int(o.value) else Null
  }

  function RealOrNull(o: Option<real>): Json {
    if o.Some? then Real(o.value) else Null
  }

  function EmitUsage(u: TokenUsage): Object {
    map["input_tokens" := Int(u.inputTokens),
        "cached_input_tokens" := Int(u.cachedInputTokens),
        "cache_write_input_tokens" := Int(u.cacheWriteInputTokens),
        "output_tokens" := Int(u.outputTokens),
        "reasoning_output_tokens" := CountOrNull(u.reasoningOutputTokens),
        "context_tokens" := Int(u.contextTokens),
        "task_tokens" := Int(u.taskTokens),
        "cache_adjusted_input_tokens" := Int(u.cacheAdjustedInputTokens),
        "requests" := Int(u.requests),
        "usd" := RealOrNull(u.usd),
        "pricing_id" := u.pricingId,
        "provider" := u.provider,
        "model" := u.model,
        "tool_calls" := Int(u.toolCalls),
        "elapsed_ms" := Real(u.elapsedMs)]
  }

  function EmitAll(requests: seq<TokenUsage>): seq<Json> {
    Map(requests, (u: TokenUsage) => Obj(EmitUsage(u)))
  }

  /** The `telemetry` object of a run that produced requests. */
  function EmitTelemetry(requests: seq<TokenUsage>): Object {
    map["requests" := Arr(EmitAll(requests)), "aggregate" := Obj(EmitUsage(Aggregate(requests)))]
  }

  /** `_zero_telemetry`: the object of a run that failed before any request. */
  function ZeroTelemetry(pricingId: string, provider: string, model: string): Object {
    map["requests" := Arr([]),
        "aggregate" := Obj(EmitUsage(NOTHING.(pricingId := Str(pricingId), provider := Str(provider), model := Str(model))))]
  }

  // ---------------------------------------------------------------- receiver

  datatype ParseError = NotObject | FieldMissing | CountsNotIntegers | CachedExceedsInput | CacheAdjustmentWrong | Rejected

  predicate IsNumber(j: Json) {
    j.Int? || j.Real?
  }

  function Number(j: Json): real
    requires IsNumber(j)
  {
    if j.Int? then j.n as real else j.r
  }

  predicate HasRequiredFields(o: Object) {
    "input_tokens" in o && "cached_input_tokens" in o && "cache_write_input_tokens" in o && "output_tokens" in o &&
    "reasoning_output_tokens" in o && "context_tokens" in o && "task_tokens" in o &&
    "cache_adjusted_input_tokens" in o && "usd" in o && "pricing_id" in o && "provider" in o && "model" in o
  }

  predicate CountsAreIntegers(o: Object) {
    Get(o, "input_tokens").Int? && Get(o, "cached_input_tokens").Int? && Get(o, "cache_write_input_tokens").Int? &&
    Get(o, "output_tokens").Int? && Get(o, "reasoning_output_tokens").Int? && Get(o, "context_tokens").Int? &&
    Get(o, "task_tokens").Int? && Get(o, "cache_adjusted_input_tokens").Int?
  }

  /**
    `parse_token_usage_v2`. A `requests`, `tool_calls`, `usd` or `elapsed_ms` of the wrong JSON type is
    what `validate_token_usage` rejects; `usd` may be null, which that validator allows one provider.
   */
  function ParseTokenUsageV2(data: Json, requests: int): Result<TokenUsage, ParseError> {
    if !data.Obj? then Err(NotObject) else
    var o := data.fields;
    if !HasRequiredFields(o) then Err(FieldMissing) else
    if !CountsAreIntegers(o) then Err(CountsNotIntegers) else
    var input, cached := Get(o, "input_tokens").n, Get(o, "cached_input_tokens").n;
    var adjusted := Get(o, "cache_adjusted_input_tokens").n;
    if cached > input then Err(CachedExceedsInput) else
    if adjusted != input - cached then Err(CacheAdjustmentWrong) else
    var requestCount, toolCalls := GetOr(o, "requests", Int(requests)), GetOr(o, "tool_calls", Int(0));
    var usd, elapsed := Get(o, "usd"), GetOr(o, "elapsed_ms", Real(0.0));
    if !requestCount.Int? || !toolCalls.Int? || !(IsNumber(usd) || usd.Null?) || !IsNumber(elapsed) then Err(Rejected) else
    var usage := TokenUsage(
      input, Get(o, "output_tokens").n, Get(o, "context_tokens").n, Get(o, "task_tokens").n, requestCount.n,
      if usd.Null? then None else Some(Number(usd)),
      cached, cached, Get(o, "cache_write_input_tokens").n, Some(Get(o, "reasoning_output_tokens").n), adjusted,
      Get(o, "pricing_id"), Get(o, "provider"), Get(o, "model"), toolCalls.n, Number(elapsed));
    if ValidateTokenUsage(usage, Total) != [] then Err(Rejected) else Ok(usage)
  }

  datatype RunnerError =
    | RequestsNotArray
    | RequestInvalid(index: nat, error: ParseError)
    | RequestsMissing
    | AggregateMissing
    | AggregateInvalid(error: ParseError)
    | AggregateMismatch
    | ZeroRequestAggregateNotZero

  function ParseRequests(items: seq<Json>): Result<seq<TokenUsage>, RunnerError> {
    if items == [] then Ok([]) else
    var front := ParseRequests(Init(items));
    if front.Err? then front else
    match ParseTokenUsageV2(Last(items), 1)
    case Err(e) => Err(RequestInvalid(|items| - 1, e))
    case Ok(usage) => Ok(front.value + [usage])
  }

  function TotalRequests(requests: seq<TokenUsage>): int {
    if requests == [] then 0 else TotalRequests(Init(requests)) + Last(requests).requests
  }

  predicate NumericallyZero(u: TokenUsage) {
    u.inputTokens == 0 && u.cachedInputTokens == 0 && u.cacheWriteInputTokens == 0 && u.outputTokens == 0 &&
    u.reasoningOutputTokens == Some(0) && u.contextTokens == 0 && u.taskTokens == 0 &&
    u.cacheAdjustedInputTokens == 0 && u.requests == 0 && u.toolCalls == 0 && u.elapsedMs == 0.0 && u.usd == Some(0.0)
  }

  /** What the telemetry section returns, as a value. */
  function ParsedTelemetry(telemetry: Json, completed: bool): Result<(seq<TokenUsage>, TokenUsage), RunnerError> {
    if !telemetry.Obj? || !Get(telemetry.fields, "requests").Arr? then Err(RequestsNotArray) else
    var requests := ParseRequests(Get(telemetry.fields, "requests").items);
    if requests.Err? then Err(requests.error) else
    if completed && requests.value == [] then Err(RequestsMissing) else
    var data := Get(telemetry.fields, "aggregate");
    if !data.Obj? then Err(AggregateMissing) else
    var total := ParseTokenUsageV2(data, TotalRequests(requests.value));
    if total.Err? then Err(AggregateInvalid(total.error)) else
    if requests.value != [] && Aggregate(requests.value) != total.value then Err(AggregateMismatch) else
    if requests.value == [] && !NumericallyZero(total.value) then Err(ZeroRequestAggregateNotZero) else
    Ok((requests.value, total.value))
  }

  /** The telemetry section of `parse_response_v2`, with its loop and early raises. */
  method ParseTelemetryV2(telemetry: Json, completed: bool) returns (r: Result<(seq<TokenUsage>, TokenUsage), RunnerError>)
    ensures r == ParsedTelemetry(telemetry, completed)
  {
    if !telemetry.Obj? || !Get(telemetry.fields, "requests").Arr? {
      return Err(RequestsNotArray);
    }
    var items := Get(telemetry.fields, "requests").items;
    var requests: seq<TokenUsage> := [];
    var count := 0;
    for i := 0 to |items|
      invariant ParseRequests(items[..i]) == Ok(requests)
      invariant count == TotalRequests(requests)
    {
      assert Init(items[..i + 1]) == items[..i];
      var parsed := ParseTokenUsageV2(items[i], 1);
      if parsed.Err? {
        ParseStopsAt(items, i);
        return Err(RequestInvalid(i, parsed.error));
      }
      assert Init(requests + [parsed.value]) == requests;
      requests := requests + [parsed.value];
      count := count + parsed.value.requests;
    }
    assert items[..|items|] == items;
    if completed && requests == [] {
      return Err(RequestsMissing);
    }
    var data := Get(telemetry.fields, "aggregate");
    if !data.Obj? {
      return Err(AggregateMissing);
    }
    var total := ParseTokenUsageV2(data, count);
    if total.Err? {
      return Err(AggregateInvalid(total.error));
    }
    var expected := AggregateTelemetry(requests);
    if requests != [] {
      if expected != total.value {
        return Err(AggregateMismatch);
      }
    } else if !NumericallyZero(total.value) {
      return Err(ZeroRequestAggregateNotZero);
    }
    return Ok((requests, total.value));
  }

  /** The first request that does not parse decides the result of the loop. */
  lemma {:induction false} ParseStopsAt(items: seq<Json>, i: nat)
    requires i < |items| && ParseRequests(items[..i]).Ok? && ParseTokenUsageV2(items[i], 1).Err?
    ensures ParseRequests(items) == Err(RequestInvalid(i, ParseTokenUsageV2(items[i], 1).error))
  {
    if i == |items| - 1 {
      assert Init(items) == items[..i];
    } else {
      assert Init(items)[..i] == items[..i];
      ParseStopsAt(Init(items), i);
    }
  }

  // ---------------------------------------------------------------- round trip

  /** A record that the wire carries without loss. */
  predicate WireExact(u: TokenUsage) {
    && Admissible(u) && u.reasoningOutputTokens.Some?
    && u.cachedTokens == u.cachedInputTokens <= u.inputTokens
    && u.cacheAdjustedInputTokens == u.inputTokens - u.cachedInputTokens
  }

  lemma EmittedCounts(u: TokenUsage)
    ensures var o := EmitUsage(u);
      && Get(o, "input_tokens") == Int(u.inputTokens) && Get(o, "cached_input_tokens") == Int(u.cachedInputTokens)
      && Get(o, "cache_write_input_tokens") == Int(u.cacheWriteInputTokens) && Get(o, "output_tokens") == Int(u.outputTokens)
      && Get(o, "reasoning_output_tokens") == CountOrNull(u.reasoningOutputTokens)
  {
  }

  lemma EmittedSplit(u: TokenUsage)
    ensures var o := EmitUsage(u);
      && Get(o, "context_tokens") == Int(u.contextTokens) && Get(o, "task_tokens") == Int(u.taskTokens)
      && Get(o, "cache_adjusted_input_tokens") == Int(u.cacheAdjustedInputTokens)
      && GetOr(o, "requests", Int(1)) == Int(u.requests) == Get(o, "requests") && "requests" in o
  {
  }

  lemma EmittedRest(u: TokenUsage)
    ensures var o := EmitUsage(u);
      && Get(o, "usd") == RealOrNull(u.usd) && Get(o, "pricing_id") == u.pricingId && Get(o, "provider") == u.provider
      && Get(o, "model") == u.model && "tool_calls" in o && Get(o, "tool_calls") == Int(u.toolCalls)
      && "elapsed_ms" in o && Get(o, "elapsed_ms") == Real(u.elapsedMs)
  {
  }

  lemma EmittedFieldsPresent(u: TokenUsage)
    ensures HasRequiredFields(EmitUsage(u))
  {
  }

  /** One record survives the wire exactly when it is wire-exact. */
  lemma UsageRoundTrip(u: TokenUsage, requests: int)
    ensures ParseTokenUsageV2(Obj(EmitUsage(u)), requests) == Ok(u) <==> WireExact(u)
  {
    EmittedCounts(u);
    EmittedSplit(u);
    EmittedRest(u);
    EmittedFieldsPresent(u);
    NoProblemIffAdmissible(u, Total);
  }

  lemma ParseAppended(items: seq<Json>, item: Json, usages: seq<TokenUsage>)
    requires usages != []
    ensures ParseRequests(items + [item]) == Ok(usages) <==>
      ParseRequests(items) == Ok(Init(usages)) && ParseTokenUsageV2(item, 1) == Ok(Last(usages))
  {
    assert Init(items + [item]) == items;
    assert usages == Init(usages) + [Last(usages)];
    if ParseRequests(items).Ok? && ParseTokenUsageV2(item, 1).Ok? {
      var front, last := ParseRequests(items).value, ParseTokenUsageV2(item, 1).value;
      assert Init(front + [last]) == front && Last(front + [last]) == last;
    }
  }

  predicate AllWireExact(requests: seq<TokenUsage>) {
    forall i :: 0 <= i < |requests| ==> WireExact(requests[i])
  }

  lemma {:induction false} RequestsRoundTrip(requests: seq<TokenUsage>)
    ensures ParseRequests(EmitAll(requests)) == Ok(requests) <==> AllWireExact(requests)
  {
    hide EmitUsage, ParseTokenUsageV2, WireExact;
    if requests != [] {
      var front, last := Init(requests), Last(requests);
      RequestsRoundTrip(front);
      assert EmitAll(requests) == EmitAll(front) + [Obj(EmitUsage(last))];
      ParseAppended(EmitAll(front), Obj(EmitUsage(last)), requests);
      UsageRoundTrip(last, 1);
      assert AllWireExact(requests) <==> AllWireExact(front) && WireExact(last) by {
        assert forall i :: 0 <= i < |front| ==> front[i] == requests[i];
      }
    }
  }

  predicate Balanced(u: TokenUsage) {
    && u.cachedTokens == u.cachedInputTokens <= u.inputTokens
    && u.cacheAdjustedInputTokens == u.inputTokens - u.cachedInputTokens
  }

  lemma {:induction false} TotalIsBalanced(requests: seq<TokenUsage>)
    requires forall i :: 0 <= i < |requests| ==> Balanced(requests[i])
    ensures Balanced(Aggregate(requests))
  {
    if requests != [] {
      TotalIsBalanced(Init(requests));
    }
  }

  lemma EmittedTelemetry(requests: seq<TokenUsage>)
    ensures Get(EmitTelemetry(requests), "requests") == Arr(EmitAll(requests))
    ensures Get(EmitTelemetry(requests), "aggregate") == Obj(EmitUsage(Aggregate(requests)))
  {
  }

  lemma TotalIsWireExact(requests: seq<TokenUsage>)
    requires AllWireExact(requests)
    ensures WireExact(Aggregate(requests)) <==> AllPriced(requests) || MayWithhold(requests)
  {
    hide Aggregate, MayWithhold;
    ProviderOfTotal(requests);
    TotalIsSound(requests);
    TotalIsBalanced(requests);
    AbsenceIsExact(requests);
  }

  /**
    Wire round trip. The receiver returns exactly the requests and the total that the sender had, and
    raises nothing, if and only if every request is wire-exact and either all of them have a cost or
    the first that names a provider names the one that may withhold it.
   */
  lemma WireRoundTrip(requests: seq<TokenUsage>, completed: bool)
    requires requests != []
    ensures ParsedTelemetry(Obj(EmitTelemetry(requests)), completed) == Ok((requests, Aggregate(requests))) <==>
      AllWireExact(requests) && (AllPriced(requests) || MayWithhold(requests))
  {
    hide Aggregate, EmitTelemetry, EmitUsage, ParseTokenUsageV2, ParseRequests, EmitAll, WireExact, MayWithhold, AllPriced;
    EmittedTelemetry(requests);
    RequestsRoundTrip(requests);
    UsageRoundTrip(Aggregate(requests), TotalRequests(requests));
    if AllWireExact(requests) {
      TotalIsWireExact(requests);
    }
  }

  /** Two requests that each cross the wire, but not together with their total. */
  lemma MixedProvidersDoNotCross(completed: bool)
    ensures AllWireExact([METERED, UNPRICED])
    ensures var requests := [METERED, UNPRICED];
      ParsedTelemetry(Obj(EmitTelemetry(requests)), completed) != Ok((requests, Aggregate(requests)))
  {
    hide ParsedTelemetry, EmitTelemetry, Aggregate, MayWithhold;
    MixedRecordsAreAdmissible();
    assert !AllPriced([METERED, UNPRICED]) by { assert [METERED, UNPRICED][1].usd.None?; }
    MixedProvidersDoNotWithhold();
    WireRoundTrip([METERED, UNPRICED], completed);
  }

  /** Without requests, a numerically zero total is accepted, but never for a completed run. */
  lemma EmptyTelemetry(o: Object, total: TokenUsage, completed: bool)
    requires Get(o, "requests") == Arr([]) && Get(o, "aggregate") == Obj(EmitUsage(total))
    requires WireExact(total) && NumericallyZero(total)
    ensures ParsedTelemetry(Obj(o), completed) == if completed then Err(RequestsMissing) else Ok(([], total))
  {
    hide EmitUsage, ParseTokenUsageV2, WireExact, NumericallyZero, Aggregate;
    UsageRoundTrip(total, 0);
  }

  /** The record of a run that failed before any request is accepted, but never for a completed run. */
  lemma ZeroTelemetryRoundTrip(pricingId: string, provider: string, model: string, completed: bool)
    ensures
      var total := NOTHING.(pricingId := Str(pricingId), provider := Str(provider), model := Str(model));
      ParsedTelemetry(Obj(ZeroTelemetry(pricingId, provider, model)), completed) ==
        if completed then Err(RequestsMissing) else Ok(([], total))
  {
    hide ParsedTelemetry, EmitUsage, WireExact, NumericallyZero, ZeroTelemetry, Get;
    EmittedZero(pricingId, provider, model);
    ZeroIsWireExact(pricingId, provider, model);
    var total := NOTHING.(pricingId := Str(pricingId), provider := Str(provider), model := Str(model));
    EmptyTelemetry(ZeroTelemetry(pricingId, provider, model), total, completed);
  }

  lemma ZeroIsWireExact(pricingId: string, provider: string, model: string)
    ensures
      var total := NOTHING.(pricingId := Str(pricingId), provider := Str(provider), model := Str(model));
      WireExact(total) && NumericallyZero(total)
  {
  }

  lemma EmittedZero(pricingId: string, provider: string, model: string)
    ensures var o := ZeroTelemetry(pricingId, provider, model);
      && Get(o, "requests") == Arr([])
      && Get(o, "aggregate") == Obj(EmitUsage(NOTHING.(pricingId := Str(pricingId), provider := Str(provider), model := Str(model))))
  {
    hide EmitUsage;
  }

  // ---------------------------------------------------------------- what acceptance means

  /** Every value of the record was read from its own key, and only what may be missing was filled in. */
  predicate Carries(o: Object, u: TokenUsage, requests: int) {
    && Get(o, "input_tokens") == Int(u.inputTokens) && Get(o, "output_tokens") == Int(u.outputTokens)
    && Get(o, "context_tokens") == Int(u.contextTokens) && Get(o, "task_tokens") == Int(u.taskTokens)
    && Get(o, "cached_input_tokens") == Int(u.cachedInputTokens) && u.cachedTokens == u.cachedInputTokens
    && Get(o, "cache_write_input_tokens") == Int(u.cacheWriteInputTokens)
    && u.reasoningOutputTokens.Some? && Get(o, "reasoning_output_tokens") == Int(u.reasoningOutputTokens.value)
    && Get(o, "cache_adjusted_input_tokens") == Int(u.cacheAdjustedInputTokens)
    && "pricing_id" in o && u.pricingId == o["pricing_id"] && "provider" in o && u.provider == o["provider"]
    && "model" in o && u.model == o["model"] && "usd" in o
    && (if u.usd.None? then o["usd"] == Null else IsNumber(o["usd"]) && Number(o["usd"]) == u.usd.value)
    && (if "requests" in o then o["requests"] == Int(u.requests) else u.requests == requests)
    && (if "tool_calls" in o then o["tool_calls"] == Int(u.toolCalls) else u.toolCalls == 0)
    && (if "elapsed_ms" in o then IsNumber(o["elapsed_ms"]) && Number(o["elapsed_ms"]) == u.elapsedMs else u.elapsedMs == 0.0)
  }

  /** An accepted record is valid, balances its input, and carries what its object says under each key. */
  lemma AcceptedRecordIsFaithful(data: Json, requests: int)
    requires ParseTokenUsageV2(data, requests).Ok?
    ensures var u := ParseTokenUsageV2(data, requests).value;
      data.Obj? && Carries(data.fields, u, requests) && Admissible(u) && u.cachedInputTokens + u.cacheAdjustedInputTokens == u.inputTokens
  {
    hide ValidateTokenUsage, Admissible;
    NoProblemIffAdmissible(ParseTokenUsageV2(data, requests).value, Total);
  }

  lemma {:induction false} ParsedOneByOne(items: seq<Json>)
    requires ParseRequests(items).Ok?
    ensures |ParseRequests(items).value| == |items|
    ensures forall i :: 0 <= i < |items| ==> ParseTokenUsageV2(items[i], 1) == Ok(ParseRequests(items).value[i])
  {
    hide ParseTokenUsageV2;
    if items != [] {
      ParsedOneByOne(Init(items));
      assert forall i :: 0 <= i < |items| - 1 ==> Init(items)[i] == items[i];
    }
  }

  /**
    Whatever telemetry is accepted: each request is the record parsed from the item at its place, and
    the total is their sum. Without requests the run was not completed and the total is zero but for
    its tags.
   */
  lemma AcceptedTelemetryIsTotalled(telemetry: Json, completed: bool)
    requires ParsedTelemetry(telemetry, completed).Ok?
    ensures telemetry.Obj? && Get(telemetry.fields, "requests").Arr? && Get(telemetry.fields, "aggregate").Obj?
    ensures
      var items := Get(telemetry.fields, "requests").items;
      var (requests, total) := ParsedTelemetry(telemetry, completed).value;
      && |requests| == |items| && (forall i :: 0 <= i < |items| ==> ParseTokenUsageV2(items[i], 1) == Ok(requests[i]))
      && ParseTokenUsageV2(Get(telemetry.fields, "aggregate"), SumOf(requests, (u: TokenUsage) => u.requests)) == Ok(total)
      && (if requests != [] then total == Aggregate(requests)
          else !completed && total == NOTHING.(pricingId := total.pricingId, provider := total.provider, model := total.model))
  {
    hide ParseTokenUsageV2, Aggregate;
    var items := Get(telemetry.fields, "requests").items;
    ParsedOneByOne(items);
    var (requests, total) := ParsedTelemetry(telemetry, completed).value;
    RequestsAreSummed(requests);
    assert total.cachedTokens == total.cachedInputTokens by {
      hide Carries;
      AcceptedRecordIsFaithful(Get(telemetry.fields, "aggregate"), TotalRequests(requests));
      CarriedCache(Get(telemetry.fields, "aggregate").fields, total, TotalRequests(requests));
    }
  }

  lemma CarriedCache(o: Object, u: TokenUsage, requests: int)
    requires Carries(o, u, requests)
    ensures u.cachedTokens == u.cachedInputTokens
  {
  }

  lemma {:induction false} RequestsAreSummed(requests: seq<TokenUsage>)
    ensures TotalRequests(requests) == SumOf(requests, (u: TokenUsage) => u.requests)
  {
    if requests != [] {
      RequestsAreSummed(Init(requests));
    }
  }

  /** Which fault of a record is reported first. */
  lemma RecordRefusalsInOrder(data: Json, requests: int)
    ensures var r := ParseTokenUsageV2(data, requests);
      && (r == Err(NotObject) <==> !data.Obj?)
      && (r == Err(FieldMissing) <==> data.Obj? && !HasRequiredFields(data.fields))
      && (r == Err(CountsNotIntegers) <==> data.Obj? && HasRequiredFields(data.fields) && !CountsAreIntegers(data.fields))
      && (data.Obj? && HasRequiredFields(data.fields) && CountsAreIntegers(data.fields) ==>
            var input, cached := Get(data.fields, "input_tokens").n, Get(data.fields, "cached_input_tokens").n;
            var adjusted := Get(data.fields, "cache_adjusted_input_tokens").n;
            && (r == Err(CachedExceedsInput) <==> cached > input)
            && (r == Err(CacheAdjustmentWrong) <==> cached <= input && adjusted + cached != input))
  {
    hide ValidateTokenUsage, HasRequiredFields;
  }

  /** Conversely, an object that carries a valid and balanced record is parsed as that record. */
  lemma CarriedRecordIsAccepted(o: Object, u: TokenUsage, requests: int)
    requires Carries(o, u, requests) && Admissible(u) && u.cachedInputTokens + u.cacheAdjustedInputTokens == u.inputTokens
    ensures ParseTokenUsageV2(Obj(o), requests) == Ok(u)
  {
    hide ValidateTokenUsage;
    NoProblemIffAdmissible(u, Total);
  }

  lemma {:induction false} ParsedFromOneByOne(items: seq<Json>, requests: seq<TokenUsage>)
    requires |items| == |requests| && forall i :: 0 <= i < |items| ==> ParseTokenUsageV2(items[i], 1) == Ok(requests[i])
    ensures ParseRequests(items) == Ok(requests)
  {
    hide ParseTokenUsageV2;
    if items != [] {
      ParsedFromOneByOne(Init(items), Init(requests));
      assert requests == Init(requests) + [Last(requests)];
    }
  }

  /** Conversely, telemetry of requests that parse, with their sum as its total, is accepted. */
  lemma TotalledTelemetryIsAccepted(telemetry: Object, completed: bool, requests: seq<TokenUsage>, total: TokenUsage)
    requires Get(telemetry, "requests").Arr? && Get(telemetry, "aggregate").Obj?
    requires var items := Get(telemetry, "requests").items;
      |items| == |requests| && forall i :: 0 <= i < |items| ==> ParseTokenUsageV2(items[i], 1) == Ok(requests[i])
    requires ParseTokenUsageV2(Get(telemetry, "aggregate"), SumOf(requests, (u: TokenUsage) => u.requests)) == Ok(total)
    requires if requests != [] then total == Aggregate(requests)
      else !completed && total == NOTHING.(pricingId := total.pricingId, provider := total.provider, model := total.model)
    ensures ParsedTelemetry(Obj(telemetry), completed) == Ok((requests, total))
  {
    hide ParseTokenUsageV2, Aggregate;
    ParsedFromOneByOne(Get(telemetry, "requests").items, requests);
    RequestsAreSummed(requests);
  }
}

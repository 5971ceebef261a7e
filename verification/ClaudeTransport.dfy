/** The per-request accounting of `ClaudeCodeTransport.run` in benchmarks/harness/transport.py. */
module ClaudeTransport {
  import opened Prelude
  import opened JsonValues
  import opened Rounding
  import opened TokenModel
  import opened Execution
  import opened Runners

  datatype TransportError = BadCount | CountsMissing | TaskExceedsInput | BadCost | NoUsageEvents

  /** `_as_int` */
  function AsCount(value: Json): Result<nat, TransportError> {
    if value.Int? && value.n >= 0 then Ok(value.n) else Err(BadCount)
  }

  /** `_first_int`: the first of the names that is present decides. */
  function FirstCount(o: Object, names: seq<string>): Result<Option<nat>, TransportError> {
    if names == [] then Ok(None)
    else if names[0] in o then
      match AsCount(o[names[0]])
      case Err(e) => Err(e)
      case Ok(n) => Ok(Some(n))
    else FirstCount(o, names[1..])
  }

  predicate IsInputKey(key: string) {
    Contains(key, "input_tokens") || Contains(key, "InputTokens")
  }

  /** Sum of the counts under the given keys. */
  ghost function SumOver(o: Object, keys: set<string>): nat
    requires forall k :: k in keys ==> k in o && AsCount(o[k]).Ok?
  {
    if keys == {} then 0 else
    var k :| k in keys;
    AsCount(o[k]).value + SumOver(o, keys - {k})
  }

  /** The sum does not depend on the order in which the keys are visited. */
  lemma SumOverAnyOrder(o: Object, keys: set<string>, key: string)
    requires key in keys && forall k :: k in keys ==> k in o && AsCount(o[k]).Ok?
    ensures SumOver(o, keys) == AsCount(o[key]).value + SumOver(o, keys - {key})
    decreases keys
  {
    var k :| k in keys && SumOver(o, keys) == AsCount(o[k]).value + SumOver(o, keys - {k});
    if k != key {
      SumOverAnyOrder(o, keys - {k}, key);
      SumOverAnyOrder(o, keys - {key}, k);
      assert keys - {k} - {key} == keys - {key} - {k};
    }
  }

  ghost function InputKeys(o: Object): set<string> {
    set k | k in o && IsInputKey(k)
  }

  /** The nested object of cache-creation counts. */
  function NestedCacheCreation(usage: Object): Json {
    Or(Get(usage, "cache_creation"), Get(usage, "cacheCreation"))
  }

  /** The value of `_cache_creation_tokens`. */
  ghost function CacheCreation(usage: Object): Result<nat, TransportError> {
    var direct := FirstCount(usage, ["cache_creation_input_tokens", "cacheCreationInputTokens", "cache_write_input_tokens"]);
    if direct.Err? then Err(direct.error)
    else if direct.value.Some? then Ok(direct.value.value)
    else
      var nested := NestedCacheCreation(usage);
      if !nested.Obj? then Ok(0)
      else if forall k :: k in InputKeys(nested.fields) ==> AsCount(nested.fields[k]).Ok? then
        Ok(SumOver(nested.fields, InputKeys(nested.fields)))
      else Err(BadCount)
  }

  /** `_cache_creation_tokens`, visiting the nested keys in any order. */
  method CacheCreationTokens(usage: Object) returns (r: Result<nat, TransportError>)
    ensures r == CacheCreation(usage)
  {
    var direct := FirstCount(usage, ["cache_creation_input_tokens", "cacheCreationInputTokens", "cache_write_input_tokens"]);
    if direct.Err? {
      return Err(direct.error);
    }
    if direct.value.Some? {
      return Ok(direct.value.value);
    }
    var nested := NestedCacheCreation(usage);
    if !nested.Obj? {
      return Ok(0);
    }
    var total, rest := 0, nested.fields.Keys;
    ghost var wanted := InputKeys(nested.fields);
    while rest != {}
      invariant rest <= nested.fields.Keys
      invariant forall k :: k in wanted - rest ==> AsCount(nested.fields[k]).Ok?
      invariant total == SumOver(nested.fields, wanted - rest)
      decreases rest
    {
      var key :| key in rest;
      if IsInputKey(key) {
        var count := AsCount(nested.fields[key]);
        if count.Err? {
          return Err(BadCount);
        }
        total := total + count.value;
        assert wanted - (rest - {key}) - {key} == wanted - rest;
        SumOverAnyOrder(nested.fields, wanted - (rest - {key}), key);
      } else {
        assert wanted - (rest - {key}) == wanted - rest;
      }
      rest := rest - {key};
    }
    assert wanted - rest == wanted;
    return Ok(total);
  }

  predicate IsCost(value: Json) {
    value == Null || (IsNumber(value) && Number(value) >= 0.0)
  }

  function CostOf(value: Json): Option<real>
    requires IsCost(value)
  {
    if value == Null then None else Some(Number(value))
  }

  /** What all requests of one stream share. */
  datatype Stream = Stream(
    usages: seq<Object>, totalCost: Option<real>, taskTokens: nat, toolCount: nat, elapsedMs: real,
    pricingId: string, model: string)

  function TaskShare(s: Stream, j: nat): nat {
    if j == 0 then s.taskTokens else 0
  }

  function RequestCost(s: Stream, usage: Object): Option<real>
    requires IsCost(GetOr(usage, "cost_usd", Get(usage, "costUSD")))
  {
    var own := CostOf(GetOr(usage, "cost_usd", Get(usage, "costUSD")));
    if own.None? && |s.usages| == 1 then s.totalCost else own
  }

  /** The record of request j, from the counts read from its usage object. */
  function Record(s: Stream, j: nat, uncached: nat, output: nat, cacheRead: nat, cacheWrite: nat,
                  reasoning: Option<nat>, cost: Option<real>): TokenUsage
  {
    var input := uncached + cacheRead + cacheWrite;
    TokenUsage(
      input, output, input - TaskShare(s, j), TaskShare(s, j), 1, cost, cacheRead, cacheRead, cacheWrite, reasoning, uncached,
      Str(s.pricingId), ANTHROPIC, Str(s.model), s.toolCount, if j == |s.usages| - 1 then s.elapsedMs else 0.0)
  }

  /** The value of one iteration of the accounting loop, with its raises in source order. */
  ghost function RequestOf(s: Stream, j: nat): Result<TokenUsage, TransportError>
    requires j < |s.usages|
  {
    var usage := s.usages[j];
    var uncached := FirstCount(usage, ["input_tokens", "inputTokens"]);
    if uncached.Err? then Err(uncached.error) else
    var output := FirstCount(usage, ["output_tokens", "outputTokens"]);
    if output.Err? then Err(output.error) else
    if uncached.value.None? || output.value.None? then Err(CountsMissing) else
    var cacheRead := FirstCount(usage, ["cache_read_input_tokens", "cacheReadInputTokens", "cached_input_tokens"]);
    if cacheRead.Err? then Err(cacheRead.error) else
    var cacheWrite := CacheCreation(usage);
    if cacheWrite.Err? then Err(cacheWrite.error) else
    var read := if cacheRead.value.Some? then cacheRead.value.value else 0;
    if TaskShare(s, j) > uncached.value.value + read + cacheWrite.value then Err(TaskExceedsInput) else
    var reasoning := FirstCount(usage, ["reasoning_output_tokens", "reasoningOutputTokens", "thinking_tokens", "thinkingTokens"]);
    if reasoning.Err? then Err(reasoning.error) else
    if !IsCost(GetOr(usage, "cost_usd", Get(usage, "costUSD"))) then Err(BadCost) else
    Ok(Record(s, j, uncached.value.value, output.value.value, read, cacheWrite.value, reasoning.value, RequestCost(s, usage)))
  }

  ghost function RequestsOf(s: Stream, n: nat): Result<seq<TokenUsage>, TransportError>
    requires n <= |s.usages|
  {
    if n == 0 then Ok([]) else
    var front := RequestsOf(s, n - 1);
    if front.Err? then front else
    match RequestOf(s, n - 1)
    case Err(e) => Err(e)
    case Ok(u) => Ok(front.value + [u])
  }

  method AccountOne(s: Stream, j: nat) returns (r: Result<TokenUsage, TransportError>)
    requires j < |s.usages|
    ensures r == RequestOf(s, j)
  {
    hide CacheCreation, FirstCount;
    var usage := s.usages[j];
    var uncached := FirstCount(usage, ["input_tokens", "inputTokens"]);
    if uncached.Err? {
      return Err(uncached.error);
    }
    var output := FirstCount(usage, ["output_tokens", "outputTokens"]);
    if output.Err? {
      return Err(output.error);
    }
    if uncached.value.None? || output.value.None? {
      return Err(CountsMissing);
    }
    var cacheRead := FirstCount(usage, ["cache_read_input_tokens", "cacheReadInputTokens", "cached_input_tokens"]);
    if cacheRead.Err? {
      return Err(cacheRead.error);
    }
    var cacheWrite := CacheCreationTokens(usage);
    if cacheWrite.Err? {
      return Err(cacheWrite.error);
    }
    var read := if cacheRead.value.Some? then cacheRead.value.value else 0;
    if TaskShare(s, j) > uncached.value.value + read + cacheWrite.value {
      return Err(TaskExceedsInput);
    }
    var reasoning := FirstCount(usage, ["reasoning_output_tokens", "reasoningOutputTokens", "thinking_tokens", "thinkingTokens"]);
    if reasoning.Err? {
      return Err(reasoning.error);
    }
    if !IsCost(GetOr(usage, "cost_usd", Get(usage, "costUSD"))) {
      return Err(BadCost);
    }
    return Ok(Record(s, j, uncached.value.value, output.value.value, read, cacheWrite.value, reasoning.value, RequestCost(s, usage)));
  }

  /** The accounting loop. */
  method Account(s: Stream) returns (r: Result<(seq<TokenUsage>, TokenUsage), TransportError>)
    ensures s.usages == [] ==> r == Err(NoUsageEvents)
    ensures s.usages != [] && RequestsOf(s, |s.usages|).Ok? ==>
      r == Ok((RequestsOf(s, |s.usages|).value, Aggregate(RequestsOf(s, |s.usages|).value)))
    ensures s.usages != [] && RequestsOf(s, |s.usages|).Err? ==> r == Err(RequestsOf(s, |s.usages|).error)
  {
    hide RequestOf, Aggregate;
    if s.usages == [] {
      return Err(NoUsageEvents);
    }
    var requests: seq<TokenUsage> := [];
    for j := 0 to |s.usages|
      invariant RequestsOf(s, j) == Ok(requests)
    {
      var one := AccountOne(s, j);
      if one.Err? {
        ErrorsPersist(s, j + 1, |s.usages|);
        return Err(one.error);
      }
      requests := requests + [one.value];
    }
    var total := AggregateTelemetry(requests);
    return Ok((requests, total));
  }

  lemma {:induction false} ErrorsPersist(s: Stream, m: nat, n: nat)
    requires m <= n <= |s.usages| && RequestsOf(s, m).Err?
    ensures RequestsOf(s, n) == RequestsOf(s, m)
  {
    if m < n {
      ErrorsPersist(s, m, n - 1);
    }
  }

  // ---------------------------------------------------------------- laws

  /** A stream as the transport builds it: a non-negative rounded duration and a non-negative total cost. */
  predicate WellTimed(s: Stream) {
    s.elapsedMs >= 0.0 && Quantized(s.elapsedMs, MILLIS) && (s.totalCost.Some? ==> s.totalCost.value >= 0.0)
  }

  /** What one accounted request is, read off its record alone. */
  predicate Normalized(s: Stream, j: nat, u: TokenUsage) {
    && AcceptableRequest(u) && u.provider == ANTHROPIC
    && u.inputTokens == u.cacheAdjustedInputTokens + u.cachedInputTokens + u.cacheWriteInputTokens
    && u.contextTokens + u.taskTokens == u.inputTokens && u.taskTokens == TaskShare(s, j)
    && u.cachedTokens == u.cachedInputTokens && u.toolCalls == s.toolCount
    && u.elapsedMs == (if j == |s.usages| - 1 then s.elapsedMs else 0.0)
  }

  lemma RequestIsNormalized(s: Stream, j: nat)
    requires WellTimed(s) && j < |s.usages| && RequestOf(s, j).Ok?
    ensures Normalized(s, j, RequestOf(s, j).value)
  {
    hide FirstCount, CacheCreation, Quantized;
  }

  ghost predicate AllNormalized(s: Stream, requests: seq<TokenUsage>) {
    forall j :: 0 <= j < |requests| ==> Normalized(s, j, requests[j])
  }

  lemma {:induction false} RequestsAreNormalized(s: Stream, n: nat)
    requires WellTimed(s) && n <= |s.usages| && RequestsOf(s, n).Ok?
    ensures |RequestsOf(s, n).value| == n && AllNormalized(s, RequestsOf(s, n).value)
  {
    hide RequestOf, Normalized;
    if n > 0 {
      RequestsAreNormalized(s, n - 1);
      RequestIsNormalized(s, n - 1);
    }
  }

  /** Whatever this transport accepts raises no telemetry problem in the envelope. */
  lemma ClaudeEnvelopeAccepted(s: Stream)
    requires WellTimed(s) && RequestsOf(s, |s.usages|).Ok?
    ensures EnvelopeTelemetryProblems(RequestsOf(s, |s.usages|).value, Aggregate(RequestsOf(s, |s.usages|).value)) == []
  {
    hide RequestsOf, Aggregate, EnvelopeTelemetryProblems, AcceptableRequest, Admissible;
    var requests := RequestsOf(s, |s.usages|).value;
    RequestsAreNormalized(s, |s.usages|);
    EnvelopeAccepted(requests, Aggregate(requests));
    assert forall i :: 0 <= i < |requests| ==> Normalized(s, i, requests[i]);
    if requests != [] {
      assert PROVIDER(requests[0]) == ANTHROPIC;
    }
  }

  /** The totals of the first n normalized requests. */
  predicate TotalsUpTo(s: Stream, t: TokenUsage, n: nat) {
    && t.inputTokens == t.cacheAdjustedInputTokens + t.cachedInputTokens + t.cacheWriteInputTokens
    && t.contextTokens + t.taskTokens == t.inputTokens && t.taskTokens == (if n == 0 then 0 else s.taskTokens)
    && t.toolCalls == n * s.toolCount && t.requests == n
    && t.elapsedMs == (if n == |s.usages| && n > 0 then s.elapsedMs else 0.0)
  }

  lemma TotalsOneMore(s: Stream, t: TokenUsage, n: nat, u: TokenUsage)
    requires WellTimed(s) && n < |s.usages| && TotalsUpTo(s, t, n) && Normalized(s, n, u)
    ensures TotalsUpTo(s, t.Plus(u), n + 1)
  {
    hide AcceptableRequest, Admissible;
    assert u.requests == 1 by { OneRequest(u); }
    RoundKeepsQuantized(u.elapsedMs, MILLIS);
    assert (n + 1) * s.toolCount == n * s.toolCount + s.toolCount;
  }

  lemma OneRequest(u: TokenUsage)
    requires AcceptableRequest(u)
    ensures u.requests == 1
  {
  }

  lemma NothingTotals(s: Stream)
    ensures TotalsUpTo(s, NOTHING, 0)
  {
    assert 0 * s.toolCount == 0;
  }

  lemma {:induction false} TotalsOfPrefix(s: Stream, requests: seq<TokenUsage>)
    requires WellTimed(s) && |requests| <= |s.usages| && AllNormalized(s, requests)
    ensures TotalsUpTo(s, Aggregate(requests), |requests|)
  {
    hide TotalsUpTo, Normalized, TokenUsage.Plus, WellTimed, Aggregate;
    if requests == [] {
      NothingAggregated();
      NothingTotals(s);
    } else {
      AggregateStep(requests);
      TotalsOfPrefix(s, Init(requests));
      TotalsOneMore(s, Aggregate(Init(requests)), |requests| - 1, Last(requests));
    }
  }

  /**
    Conservation on this path: input is uncached plus cache reads plus cache writes, task tokens are
    charged once, the whole duration is charged once. The tool count of the whole stream is charged to
    every request, so the aggregate is right exactly for a single request or a stream without tools.
   */
  lemma ClaudeTotals(s: Stream)
    requires WellTimed(s) && s.usages != [] && RequestsOf(s, |s.usages|).Ok?
    ensures var t := Aggregate(RequestsOf(s, |s.usages|).value);
      && t.inputTokens == t.cacheAdjustedInputTokens + t.cachedInputTokens + t.cacheWriteInputTokens
      && t.contextTokens + t.taskTokens == t.inputTokens && t.taskTokens == s.taskTokens && t.elapsedMs == s.elapsedMs
      && t.toolCalls == |s.usages| * s.toolCount
      && (t.toolCalls == s.toolCount <==> |s.usages| == 1 || s.toolCount == 0)
  {
    hide RequestsOf, Aggregate, WellTimed;
    RequestsAreNormalized(s, |s.usages|);
    TotalsOfPrefix(s, RequestsOf(s, |s.usages|).value);
    OvercountIsExact(|s.usages|, s.toolCount);
  }

  lemma OvercountIsExact(n: nat, tools: nat)
    requires n > 0
    ensures n * tools == tools <==> n == 1 || tools == 0
  {
    assert n * tools == (n - 1) * tools + tools;
    if n > 1 && tools > 0 {
      assert (n - 1) * tools >= 1;
    }
  }

  /** The v2 wire carries such a request unchanged exactly when it wrote no cache and exposed its reasoning. */
  lemma ClaudeOnV2Wire(s: Stream, j: nat)
    requires WellTimed(s) && j < |s.usages| && RequestOf(s, j).Ok?
    ensures var u := RequestOf(s, j).value;
      ParseTokenUsageV2(Obj(EmitUsage(u)), 1) == Ok(u) <==> u.cacheWriteInputTokens == 0 && u.reasoningOutputTokens.Some?
  {
    hide RequestOf, EmitUsage, ParseTokenUsageV2, WellTimed;
    RequestIsNormalized(s, j);
    UsageRoundTrip(RequestOf(s, j).value, 1);
  }

  /** A usage object with the documented names. */
  function UsageObject(uncached: nat, output: nat, cacheRead: nat, cacheWrite: nat, reasoning: nat, cost: real): Object {
    map["input_tokens" := Int(uncached), "output_tokens" := Int(output), "cache_read_input_tokens" := Int(cacheRead),
        "cache_creation_input_tokens" := Int(cacheWrite), "reasoning_output_tokens" := Int(reasoning), "cost_usd" := Real(cost)]
  }

  lemma UsageObjectCounts(uncached: nat, output: nat, cacheRead: nat, cacheWrite: nat, reasoning: nat, cost: real)
    ensures var o := UsageObject(uncached, output, cacheRead, cacheWrite, reasoning, cost);
      && FirstCount(o, ["input_tokens", "inputTokens"]) == Ok(Some(uncached))
      && FirstCount(o, ["output_tokens", "outputTokens"]) == Ok(Some(output))
      && FirstCount(o, ["cache_read_input_tokens", "cacheReadInputTokens", "cached_input_tokens"]) == Ok(Some(cacheRead))
      && FirstCount(o, ["cache_creation_input_tokens", "cacheCreationInputTokens", "cache_write_input_tokens"]) == Ok(Some(cacheWrite))
      && FirstCount(o, ["reasoning_output_tokens", "reasoningOutputTokens", "thinking_tokens", "thinkingTokens"]) == Ok(Some(reasoning))
      && GetOr(o, "cost_usd", Get(o, "costUSD")) == Real(cost)
  {
  }

  /** What the provider reports in full is what is recorded, field by field. */
  lemma ReportedIsRecorded(s: Stream, j: nat, uncached: nat, output: nat, cacheRead: nat, cacheWrite: nat, reasoning: nat, cost: real)
    requires j < |s.usages| && s.usages[j] == UsageObject(uncached, output, cacheRead, cacheWrite, reasoning, cost) && cost >= 0.0
    requires TaskShare(s, j) <= uncached + cacheRead + cacheWrite
    ensures RequestOf(s, j).Ok?
    ensures var u := RequestOf(s, j).value;
      && u.cacheAdjustedInputTokens == uncached && u.outputTokens == output && u.cachedInputTokens == cacheRead
      && u.cacheWriteInputTokens == cacheWrite && u.reasoningOutputTokens == Some(reasoning) && u.usd == Some(cost)
  {
    hide UsageObject, FirstCount, SumOver;
    UsageObjectCounts(uncached, output, cacheRead, cacheWrite, reasoning, cost);
  }

  /** Two usage events of one token each, and one tool use in the stream. */
  const TWO_WITH_TOOL := Stream(
    [UsageObject(1, 1, 0, 0, 0, 0.0), UsageObject(1, 1, 0, 0, 0, 0.0)], None, 0, 1, 0.0, "p", "m")

  /** The one tool use is counted for both requests. */
  lemma ToolIsCountedTwice()
    ensures var s := TWO_WITH_TOOL;
      RequestsOf(s, 2).Ok? && s.toolCount == 1 && Aggregate(RequestsOf(s, 2).value).toolCalls == 2
  {
    hide UsageObject, RequestOf, Aggregate;
    var s := TWO_WITH_TOOL;
    ReportedIsRecorded(s, 0, 1, 1, 0, 0, 0, 0.0);
    ReportedIsRecorded(s, 1, 1, 1, 0, 0, 0, 0.0);
    assert RequestsOf(s, 0) == Ok([]) && RequestsOf(s, 1).Ok?;
    ClaudeTotals(s);
  }

  /** One usage event that wrote one token to the cache. */
  const WROTE_CACHE := Stream([UsageObject(1, 1, 0, 1, 0, 0.0)], None, 0, 0, 0.0, "p", "m")

  lemma CacheWriteIsNotCarried()
    ensures RequestOf(WROTE_CACHE, 0).Ok?
    ensures var u := RequestOf(WROTE_CACHE, 0).value; u.cacheWriteInputTokens == 1 && ParseTokenUsageV2(Obj(EmitUsage(u)), 1) != Ok(u)
  {
    hide UsageObject, RequestOf, EmitUsage, ParseTokenUsageV2;
    ReportedIsRecorded(WROTE_CACHE, 0, 1, 1, 0, 1, 0, 0.0);
    ClaudeOnV2Wire(WROTE_CACHE, 0);
  }

  // ---------------------------------------------------------------- what is recorded

  /** The first of the names that is present holds this count. */
  ghost predicate NamedCount(o: Object, names: seq<string>, n: nat) {
    exists i :: 0 <= i < |names| && names[i] in o && o[names[i]] == Int(n) && forall k :: 0 <= k < i ==> names[k] !in o
  }

  predicate Unnamed(o: Object, names: seq<string>) {
    forall i :: 0 <= i < |names| ==> names[i] !in o
  }

  lemma {:induction false} FirstCountIsNamed(o: Object, names: seq<string>)
    ensures forall n: nat :: FirstCount(o, names) == Ok(Some(n)) ==> NamedCount(o, names, n)
    ensures FirstCount(o, names) == Ok(None) <==> Unnamed(o, names)
  {
    if names != [] && names[0] !in o {
      var rest := names[1..];
      FirstCountIsNamed(o, rest);
      if FirstCount(o, rest).Ok? && FirstCount(o, rest).value.Some? {
        var n := FirstCount(o, rest).value.value;
        var i :| 0 <= i < |rest| && rest[i] in o && o[rest[i]] == Int(n) && forall k :: 0 <= k < i ==> rest[k] !in o;
        assert names[i + 1] in o;
        assert forall k :: 0 < k < i + 1 ==> names[k] == rest[k - 1];
      }
      assert forall k :: 0 < k < |names| ==> names[k] == rest[k - 1];
    } else if names != [] {
      assert names[0] in o;
    }
  }

  /** The cost that a usage object reports itself: `cost_usd`, even a null one, before `costUSD`. */
  function ReportedCost(o: Object): Option<real> {
    var value := if "cost_usd" in o then o["cost_usd"] else if "costUSD" in o then o["costUSD"] else Null;
    match value
    case Int(n) => Some(n as real)
    case Real(r) => Some(r)
    case _ => None
  }

  const DIRECT_CACHE_NAMES := ["cache_creation_input_tokens", "cacheCreationInputTokens", "cache_write_input_tokens"]
  const CACHE_READ_NAMES := ["cache_read_input_tokens", "cacheReadInputTokens", "cached_input_tokens"]
  const REASONING_NAMES := ["reasoning_output_tokens", "reasoningOutputTokens", "thinking_tokens", "thinkingTokens"]

  /** The cache-write count: the first direct name, or else the sum of the nested input-token counts, or else zero. */
  ghost predicate WroteCache(o: Object, n: nat) {
    || NamedCount(o, DIRECT_CACHE_NAMES, n)
    || (Unnamed(o, DIRECT_CACHE_NAMES) && !NestedCacheCreation(o).Obj? && n == 0)
    || (Unnamed(o, DIRECT_CACHE_NAMES) && NestedCacheCreation(o).Obj? &&
        var nested := NestedCacheCreation(o).fields;
        (forall k :: k in InputKeys(nested) ==> AsCount(nested[k]).Ok?) && n == SumOver(nested, InputKeys(nested)))
  }

  /** A count under some of these names, zero if there is none. */
  ghost predicate CountOrNone(o: Object, names: seq<string>, n: nat) {
    NamedCount(o, names, n) || (Unnamed(o, names) && n == 0)
  }

  /** Every field of request j comes from its own usage object, under the first of its names. */
  ghost predicate Recorded(s: Stream, j: nat, u: TokenUsage)
    requires j < |s.usages|
  {
    var o := s.usages[j];
    && u.cacheAdjustedInputTokens >= 0 && NamedCount(o, ["input_tokens", "inputTokens"], u.cacheAdjustedInputTokens)
    && u.outputTokens >= 0 && NamedCount(o, ["output_tokens", "outputTokens"], u.outputTokens)
    && u.cachedInputTokens >= 0 && CountOrNone(o, CACHE_READ_NAMES, u.cachedInputTokens)
    && u.cacheWriteInputTokens >= 0 && WroteCache(o, u.cacheWriteInputTokens)
    && (if u.reasoningOutputTokens.None? then Unnamed(o, REASONING_NAMES)
        else u.reasoningOutputTokens.value >= 0 && NamedCount(o, REASONING_NAMES, u.reasoningOutputTokens.value))
    && u.pricingId == Str(s.pricingId) && u.model == Str(s.model)
  }

  lemma CacheIsWritten(o: Object)
    requires CacheCreation(o).Ok?
    ensures WroteCache(o, CacheCreation(o).value)
  {
    hide FirstCount, NamedCount, Unnamed, SumOver;
    FirstCountIsNamed(o, DIRECT_CACHE_NAMES);
  }

  lemma RequestIsRecorded(s: Stream, j: nat)
    requires j < |s.usages| && RequestOf(s, j).Ok?
    ensures Recorded(s, j, RequestOf(s, j).value)
  {
    hide FirstCount, CacheCreation, NamedCount, Unnamed, WroteCache, IsCost, RequestCost;
    var o := s.usages[j];
    FirstCountIsNamed(o, ["input_tokens", "inputTokens"]);
    FirstCountIsNamed(o, ["output_tokens", "outputTokens"]);
    FirstCountIsNamed(o, CACHE_READ_NAMES);
    FirstCountIsNamed(o, REASONING_NAMES);
    CacheIsWritten(o);
  }

  lemma {:induction false} FirstCountIff(o: Object, names: seq<string>, n: nat)
    ensures FirstCount(o, names) == Ok(Some(n)) <==> NamedCount(o, names, n)
  {
    FirstCountIsNamed(o, names);
    if NamedCount(o, names, n) {
      NamedIsFirst(o, names, n);
    }
  }

  lemma {:induction false} NamedIsFirst(o: Object, names: seq<string>, n: nat)
    requires NamedCount(o, names, n)
    ensures FirstCount(o, names) == Ok(Some(n))
  {
    var i :| 0 <= i < |names| && names[i] in o && o[names[i]] == Int(n) && forall k :: 0 <= k < i ==> names[k] !in o;
    if i > 0 {
      assert names[0] !in o;
      var rest := names[1..];
      assert rest[i - 1] == names[i] && forall k :: 0 <= k < i - 1 ==> rest[k] == names[k + 1];
      assert NamedCount(o, rest, n);
      NamedIsFirst(o, rest, n);
    }
  }

  lemma CacheCreationIff(o: Object, n: nat)
    ensures CacheCreation(o) == Ok(n) <==> WroteCache(o, n)
  {
    hide FirstCount, NamedCount, Unnamed, SumOver;
    FirstCountIsNamed(o, DIRECT_CACHE_NAMES);
    FirstCountIff(o, DIRECT_CACHE_NAMES, n);
    if FirstCount(o, DIRECT_CACHE_NAMES).Ok? && FirstCount(o, DIRECT_CACHE_NAMES).value.Some? {
      FirstCountIff(o, DIRECT_CACHE_NAMES, FirstCount(o, DIRECT_CACHE_NAMES).value.value);
    }
  }

  /** The counts that a usage object reports, with what the task tokens and the cost need. */
  ghost predicate Accountable(s: Stream, j: nat, uncached: nat, output: nat, read: nat, write: nat, reasoning: Option<nat>)
    requires j < |s.usages|
  {
    var o := s.usages[j];
    && NamedCount(o, ["input_tokens", "inputTokens"], uncached) && NamedCount(o, ["output_tokens", "outputTokens"], output)
    && CountOrNone(o, CACHE_READ_NAMES, read) && WroteCache(o, write)
    && (if reasoning.Some? then NamedCount(o, REASONING_NAMES, reasoning.value) else Unnamed(o, REASONING_NAMES))
    && (if j == 0 then s.taskTokens else 0) <= uncached + read + write
    && IsCost(if "cost_usd" in o then o["cost_usd"] else Get(o, "costUSD"))
  }

  /** A request is accepted exactly when its usage object is accountable. */
  lemma RequestAcceptedIff(s: Stream, j: nat)
    requires j < |s.usages|
    ensures RequestOf(s, j).Ok? <==>
      exists uncached: nat, output: nat, read: nat, write: nat, reasoning: Option<nat> :: Accountable(s, j, uncached, output, read, write, reasoning)
  {
    hide FirstCount, CacheCreation, NamedCount, Unnamed, WroteCache, IsCost, RequestCost;
    var o := s.usages[j];
    if RequestOf(s, j).Ok? {
      RequestIsRecorded(s, j);
      var u := RequestOf(s, j).value;
      assert Accountable(s, j, u.cacheAdjustedInputTokens, u.outputTokens, u.cachedInputTokens, u.cacheWriteInputTokens,
        if u.reasoningOutputTokens.Some? then Some(u.reasoningOutputTokens.value) else None);
    }
    if uncached: nat, output: nat, read: nat, write: nat, reasoning: Option<nat> :| Accountable(s, j, uncached, output, read, write, reasoning) {
      FirstCountIff(o, ["input_tokens", "inputTokens"], uncached);
      FirstCountIff(o, ["output_tokens", "outputTokens"], output);
      FirstCountIff(o, CACHE_READ_NAMES, read);
      FirstCountIsNamed(o, CACHE_READ_NAMES);
      CacheCreationIff(o, write);
      FirstCountIsNamed(o, REASONING_NAMES);
      if reasoning.Some? {
        FirstCountIff(o, REASONING_NAMES, reasoning.value);
      }
    }
  }

  /** The cost of request j: its own, or else that of the whole stream if this is its only request. */
  function CostAt(s: Stream, j: nat): Option<real>
    requires j < |s.usages|
  {
    if ReportedCost(s.usages[j]).Some? then ReportedCost(s.usages[j])
    else if |s.usages| == 1 then s.totalCost
    else None
  }

  lemma RequestIsPriced(s: Stream, j: nat)
    requires j < |s.usages| && RequestOf(s, j).Ok?
    ensures RequestOf(s, j).value.usd == CostAt(s, j)
  {
    hide FirstCount, CacheCreation;
  }

  lemma {:induction false} RequestsOneByOne(s: Stream, n: nat)
    requires n <= |s.usages| && RequestsOf(s, n).Ok?
    ensures |RequestsOf(s, n).value| == n
    ensures forall j :: 0 <= j < n ==> RequestOf(s, j) == Ok(RequestsOf(s, n).value[j])
  {
    hide RequestOf;
    if n > 0 {
      RequestsOneByOne(s, n - 1);
    }
  }

  /** Every request of an accepted stream is recorded from its own usage object. */
  lemma RequestsAreRecorded(s: Stream)
    requires RequestsOf(s, |s.usages|).Ok?
    ensures |RequestsOf(s, |s.usages|).value| == |s.usages|
    ensures forall j :: 0 <= j < |s.usages| ==> Recorded(s, j, RequestsOf(s, |s.usages|).value[j])
  {
    hide RequestsOf, RequestOf, Recorded;
    RequestsOneByOne(s, |s.usages|);
    forall j | 0 <= j < |s.usages|
      ensures Recorded(s, j, RequestsOf(s, |s.usages|).value[j])
    {
      RequestIsRecorded(s, j);
    }
  }

  /**
    A cost reported for the whole stream is never split: it is charged only to a single request that
    reports none. With two or more requests the aggregate has a cost exactly when each of them reports
    its own, and then it is their sum, to half a micro-dollar per request.
   */
  lemma TotalCostIsNeverSplit(s: Stream)
    requires s.usages != [] && RequestsOf(s, |s.usages|).Ok?
    ensures var requests := RequestsOf(s, |s.usages|).value;
      && |requests| == |s.usages|
      && (forall j :: 0 <= j < |requests| ==> requests[j].usd == CostAt(s, j))
      && (|s.usages| >= 2 ==> (Aggregate(requests).usd.None? <==> exists j :: 0 <= j < |s.usages| && ReportedCost(s.usages[j]).None?))
      && (|s.usages| >= 2 && Aggregate(requests).usd.Some? ==>
            Near(Aggregate(requests).usd.value, Rounding.Total(Costs(requests)), MICROS, |requests|) &&
            forall j :: 0 <= j < |requests| ==> ReportedCost(s.usages[j]) == Some(Costs(requests)[j]))
  {
    hide RequestsOf, RequestOf, Aggregate, ReportedCost, Near, Rounding.Total;
    RequestsOneByOne(s, |s.usages|);
    var requests := RequestsOf(s, |s.usages|).value;
    forall j | 0 <= j < |requests|
      ensures requests[j].usd == CostAt(s, j)
    {
      RequestIsPriced(s, j);
    }
    AbsenceIsExact(requests);
    MeasuresAreNearSums(requests);
    if |s.usages| >= 2 {
      assert forall j :: 0 <= j < |requests| ==> requests[j].usd == ReportedCost(s.usages[j]);
      if Aggregate(requests).usd.None? {
        var i :| 0 <= i < |requests| && requests[i].usd.None?;
        assert ReportedCost(s.usages[i]).None?;
      }
    }
  }

  /** Cache-creation counts of both lifetimes, with another value beside them. */
  function NestedCounts(fiveMinutes: nat, oneHour: nat, other: Json): Object {
    map["ephemeral_5m_input_tokens" := Int(fiveMinutes), "ephemeral_1h_input_tokens" := Int(oneHour), "tier" := other]
  }

  lemma NestedInputKeys(fiveMinutes: nat, oneHour: nat, other: Json)
    ensures var o, a, b := NestedCounts(fiveMinutes, oneHour, other), "ephemeral_5m_input_tokens", "ephemeral_1h_input_tokens";
      && o != map[] && InputKeys(o) == {a, b} && a != b && a in o && b in o
      && AsCount(o[a]) == Ok(fiveMinutes) && AsCount(o[b]) == Ok(oneHour)
  {
    NestedKeys();
    hide IsInputKey;
    var a, b := "ephemeral_5m_input_tokens", "ephemeral_1h_input_tokens";
    assert a[10] != b[10] && |"tier"| == 4;
    assert "tier" in NestedCounts(fiveMinutes, oneHour, other);
  }

  /**
    The nested counts of both cache lifetimes are added, and no other nested value is. The object under
    `cacheCreation` is not looked at beside them.
   */
  lemma NestedCacheCounts(fiveMinutes: nat, oneHour: nat, other: Json, camel: Json)
    ensures CacheCreation(map["cache_creation" := Obj(NestedCounts(fiveMinutes, oneHour, other)), "cacheCreation" := camel]) ==
      Ok(fiveMinutes + oneHour)
  {
    hide NestedCounts, InputKeys, FirstCount, SumOver, NestedCacheCreation, AsCount;
    var nested, a, b := NestedCounts(fiveMinutes, oneHour, other), "ephemeral_5m_input_tokens", "ephemeral_1h_input_tokens";
    NestedInputKeys(fiveMinutes, oneHour, other);
    NestedIsRead(nested, camel);
    SumOverAnyOrder(nested, {a, b}, a);
    assert {a, b} - {a} == {b};
    SumOverAnyOrder(nested, {b}, b);
    assert {b} - {b} == {};
    NoSum(nested);
  }

  lemma NoSum(o: Object)
    ensures SumOver(o, {}) == 0
  {
  }

  lemma NestedIsRead(nested: Object, camel: Json)
    requires nested != map[]
    ensures var usage: Object := map["cache_creation" := Obj(nested), "cacheCreation" := camel];
      FirstCount(usage, DIRECT_CACHE_NAMES) == Ok(None) && NestedCacheCreation(usage) == Obj(nested)
  {
    var usage: Object := map["cache_creation" := Obj(nested), "cacheCreation" := camel];
    FirstCountIsNamed(usage, DIRECT_CACHE_NAMES);
    assert |"cache_creation"| == 14 && |"cacheCreation"| == 13 && |"cache_creation_input_tokens"| == 27 && |"cacheCreationInputTokens"| == 24 && |"cache_write_input_tokens"| == 24;
    assert "cache_creation_input_tokens" !in usage && "cacheCreationInputTokens" !in usage && "cache_write_input_tokens" !in usage;
    assert Unnamed(usage, DIRECT_CACHE_NAMES);
    assert Get(usage, "cache_creation") == Obj(nested);
  }

  lemma EndsWith(before: string, part: string)
    ensures Contains(before + part, part)
  {
    assert MatchAt(before + part, part, |before|);
    ContainsIffOccurs(before + part, part);
  }

  lemma TooShort(s: string, part: string)
    requires |s| < |part|
    ensures !Contains(s, part)
  {
  }

  lemma NestedKeys()
    ensures IsInputKey("ephemeral_5m_input_tokens") && IsInputKey("ephemeral_1h_input_tokens") && !IsInputKey("tier")
  {
    hide Contains;
    EndsWith("ephemeral_5m_", "input_tokens");
    EndsWith("ephemeral_1h_", "input_tokens");
    assert "ephemeral_5m_" + "input_tokens" == "ephemeral_5m_input_tokens" && "ephemeral_1h_" + "input_tokens" == "ephemeral_1h_input_tokens";
    TooShort("tier", "input_tokens");
    TooShort("tier", "InputTokens");
  }
}

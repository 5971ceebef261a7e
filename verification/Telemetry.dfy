/** `telemetry_from_app_run` and `_tool_call_count` of benchmarks/harness/empirical.py. */
module Telemetry {
  import opened Prelude
  import opened JsonValues
  import opened Rounding
  import opened CodexUsage
  import opened AppServer
  import opened AppServerSafety
  import opened TokenModel

  /** An app-server run as the accounting sees it, with the request identity and the counted task tokens. */
  datatype Accounting = Accounting(
    events: seq<Timed>, usage: seq<UsageMark>, taskTokens: nat, provider: string, model: string, pricingId: string)

  datatype TelemetryError = NoUsage | TaskExceedsInput

  const TOOL_ITEM_TYPES := {"commandExecution", "fileChange", "mcpToolCall", "dynamicToolCall", "functionCall"}

  predicate IsToolCompletion(message: Object) {
    var params := Get(message, "params");
    Get(message, "method") == Str("item/completed") && params.Obj? &&
    var item := Get(params.fields, "item");
    item.Obj? && var kind := Get(item.fields, "type"); kind.Str? && kind.s in TOOL_ITEM_TYPES
  }

  /** The tool completions in a list of events. */
  function Tools(events: seq<Timed>): nat {
    if events == [] then 0 else Tools(Init(events)) + if IsToolCompletion(Last(events).message) then 1 else 0
  }

  /** Python's `s[from:to]` for non-negative bounds. */
  function Slice<T>(s: seq<T>, from: nat, to: nat): seq<T> {
    if to > |s| then (if from > |s| then [] else s[from..]) else if from > to then [] else s[from..to]
  }

  /** `_tool_call_count` */
  method ToolCallCount(events: seq<Timed>, start: nat, end: nat) returns (count: nat)
    ensures count == Tools(Slice(events, start + 1, end))
  {
    var window := Slice(events, start + 1, end);
    count := 0;
    for i := 0 to |window|
      invariant count == Tools(window[..i])
    {
      assert Init(window[..i + 1]) == window[..i];
      if IsToolCompletion(window[i].message) {
        count := count + 1;
      }
    }
    assert window[..|window|] == window;
  }

  function Max(a: real, b: real): real {
    if a < b then b else a
  }

  /** The clock reading of the previous mark. */
  function PreviousAt(usage: seq<UsageMark>, j: nat): real
    requires j <= |usage|
  {
    if j == 0 then 0.0 else usage[j - 1].at
  }

  function TaskShare(a: Accounting, j: nat): nat {
    if j == 0 then a.taskTokens else 0
  }

  /** Where the interval of request j ends: at the next mark, or at the end of the run. */
  function IntervalEnd(a: Accounting, j: nat): nat {
    if j + 1 < |a.usage| then a.usage[j + 1].index else |a.events|
  }

  /** The record of request j. */
  function RequestAt(a: Accounting, j: nat): TokenUsage
    requires j < |a.usage|
  {
    var raw := a.usage[j].entry.last;
    TokenUsage(
      raw.input, raw.output, raw.input - TaskShare(a, j), TaskShare(a, j), 1, Some(0.0),
      raw.cached, raw.cached, raw.cacheWrite, Some(raw.reasoning), raw.input - raw.cached,
      Str(a.pricingId), Str(a.provider), Str(a.model),
      Tools(Slice(a.events, a.usage[j].index + 1, IntervalEnd(a, j))),
      Round(Max(0.0, a.usage[j].at - PreviousAt(a.usage, j)), MILLIS))
  }

  /** The records of the first n requests. */
  function RequestsUpTo(a: Accounting, n: nat): (r: seq<TokenUsage>)
    requires n <= |a.usage|
    ensures |r| == n
  {
    if n == 0 then [] else RequestsUpTo(a, n - 1) + [RequestAt(a, n - 1)]
  }

  function TelemetryOf(a: Accounting): Result<seq<TokenUsage>, TelemetryError> {
    if a.usage == [] then Err(NoUsage)
    else if a.taskTokens > a.usage[0].entry.last.input then Err(TaskExceedsInput)
    else Ok(RequestsUpTo(a, |a.usage|))
  }

  /** `telemetry_from_app_run`: the requests and their aggregate. */
  method TelemetryFromAppRun(a: Accounting) returns (r: Result<(seq<TokenUsage>, TokenUsage), TelemetryError>)
    ensures TelemetryOf(a).Err? ==> r == Err(TelemetryOf(a).error)
    ensures TelemetryOf(a).Ok? ==> r == Ok((TelemetryOf(a).value, Aggregate(TelemetryOf(a).value)))
  {
    hide Aggregate, Tools, Slice, Round;
    if a.usage == [] {
      return Err(NoUsage);
    }
    var requests: seq<TokenUsage> := [];
    var previousElapsed := 0.0;
    for index := 0 to |a.usage|
      invariant requests == RequestsUpTo(a, index)
      invariant previousElapsed == PreviousAt(a.usage, index)
      invariant index > 0 ==> a.taskTokens <= a.usage[0].entry.last.input
    {
      var mark := a.usage[index];
      var raw := mark.entry.last;
      var requestTaskTokens := if index == 0 then a.taskTokens else 0;
      if requestTaskTokens > raw.input {
        return Err(TaskExceedsInput);
      }
      var nextEventIndex := if index + 1 < |a.usage| then a.usage[index + 1].index else |a.events|;
      var interval := Max(0.0, mark.at - previousElapsed);
      previousElapsed := mark.at;
      var toolCalls := ToolCallCount(a.events, mark.index, nextEventIndex);
      requests := requests + [TokenUsage(
        raw.input, raw.output, raw.input - requestTaskTokens, requestTaskTokens, 1, Some(0.0),
        raw.cached, raw.cached, raw.cacheWrite, Some(raw.reasoning), raw.input - raw.cached,
        Str(a.pricingId), Str(a.provider), Str(a.model), toolCalls, Round(interval, MILLIS))];
    }
    var total := AggregateTelemetry(requests);
    return Ok((requests, total));
  }
}

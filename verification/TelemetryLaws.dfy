/** End-to-end laws of the token accounting, from the JSON-RPC stream to the validator and the wire. */
module TelemetryLaws {
  import opened Prelude
  import opened JsonValues
  import opened Rounding
  import opened CodexUsage
  import opened AppServer
  import opened AppServerSafety
  import opened TokenModel
  import opened Execution
  import opened Runners
  import opened Telemetry

  /** The usage marks carry the accepted entries of a ledger, at increasing usage notifications. */
  ghost predicate Accounts(a: Accounting, ledger: LedgerState) {
    WellNumbered(ledger) && MarksExact(a.events, ledger, a.usage)
  }

  // ---------------------------------------------------------------- conservation

  /** A total that charges the tokens `s` over n requests, the task tokens once. */
  predicate Charges(t: TokenUsage, s: UsageBreakdown, taskTokens: nat, n: nat) {
    && t.inputTokens == s.input && t.outputTokens == s.output && t.reasoningOutputTokens == Some(s.reasoning)
    && t.cachedTokens == t.cachedInputTokens == s.cached && t.cacheWriteInputTokens == s.cacheWrite
    && t.contextTokens + t.taskTokens == t.inputTokens
    && t.cacheAdjustedInputTokens + t.cachedInputTokens == t.inputTokens
    && t.taskTokens == (if n == 0 then 0 else taskTokens)
    && t.requests == n && t.usd == Some(0.0)
  }

  lemma ZeroCostStays()
    ensures Round(0.0 + 0.0, MICROS) == 0.0
  {
  }

  lemma ChargesOneMore(a: Accounting, n: nat, t: TokenUsage, s: UsageBreakdown)
    requires n < |a.usage| && Charges(t, s, a.taskTokens, n)
    ensures Charges(t.Plus(RequestAt(a, n)), s.Plus(a.usage[n].entry.last), a.taskTokens, n + 1)
  {
    hide Round, Tools, Slice;
    ZeroCostStays();
  }

  lemma AggregateNext(a: Accounting, n: nat)
    requires 0 < n <= |a.usage|
    ensures Aggregate(RequestsUpTo(a, n)) == Aggregate(RequestsUpTo(a, n - 1)).Plus(RequestAt(a, n - 1))
  {
    hide RequestAt, TokenUsage.Plus, Aggregate;
    var requests := RequestsUpTo(a, n);
    AggregateStep(requests);
    assert Init(requests) == RequestsUpTo(a, n - 1) && Last(requests) == RequestAt(a, n - 1);
  }

  lemma LastsNext(accepted: seq<AcceptedUsage>, n: nat)
    requires 0 < n <= |accepted|
    ensures SumOfLasts(accepted[..n]) == SumOfLasts(accepted[..n - 1]).Plus(accepted[n - 1].last)
  {
    hide UsageBreakdown.Plus;
    assert Init(accepted[..n]) == accepted[..n - 1];
  }

  lemma NothingCharged(a: Accounting, accepted: seq<AcceptedUsage>)
    ensures Charges(Aggregate(RequestsUpTo(a, 0)), SumOfLasts(accepted[..0]), a.taskTokens, 0)
  {
    hide Aggregate;
    NothingAggregated();
  }

  lemma {:induction false} ChargesPrefix(a: Accounting, ledger: LedgerState, n: nat)
    requires MarksExact(a.events, ledger, a.usage) && n <= |a.usage|
    ensures Charges(Aggregate(RequestsUpTo(a, n)), SumOfLasts(ledger.accepted[..n]), a.taskTokens, n)
  {
    hide Aggregate, RequestsUpTo, SumOfLasts, Charges, RequestAt, TokenUsage.Plus, UsageBreakdown.Plus;
    if n == 0 {
      NothingCharged(a, ledger.accepted);
    } else {
      ChargesPrefix(a, ledger, n - 1);
      AggregateNext(a, n);
      LastsNext(ledger.accepted, n);
      assert MarkExact(a.events, ledger, a.usage[n - 1], n - 1);
      ChargesOneMore(a, n - 1, Aggregate(RequestsUpTo(a, n - 1)), SumOfLasts(ledger.accepted[..n - 1]));
    }
  }

  /** The aggregate charges exactly the final running total of the ledger. */
  lemma Conservation(a: Accounting, ledger: LedgerState)
    requires Accounts(a, ledger) && TelemetryOf(a).Ok?
    ensures Charges(Aggregate(TelemetryOf(a).value), ledger.Running(), a.taskTokens, |ledger.accepted|)
  {
    hide Charges, RequestsUpTo, SumOfLasts, EntryExact, MarkExact;
    ChargesPrefix(a, ledger, |a.usage|);
    assert ledger.accepted[..|a.usage|] == ledger.accepted;
  }

  // ---------------------------------------------------------------- tool calls

  lemma {:induction false} ToolsOfConcat(x: seq<Timed>, y: seq<Timed>)
    ensures Tools(x + y) == Tools(x) + Tools(y)
  {
    hide IsToolCompletion;
    if y == [] {
      assert x + y == x;
    } else {
      assert Init(x + y) == x + Init(y);
      ToolsOfConcat(x, Init(y));
    }
  }

  /** The tool completions strictly between two positions, when the earlier one is no tool completion. */
  lemma ToolsAcross(events: seq<Timed>, start: nat, middle: nat, end: nat)
    requires start <= middle < end <= |events| && !IsToolCompletion(events[middle].message)
    ensures Tools(events[start..end]) == Tools(events[start..middle]) + Tools(events[middle + 1..end])
  {
    hide IsToolCompletion;
    assert events[start..end] == events[start..middle] + [events[middle]] + events[middle + 1..end];
    ToolsOfConcat(events[start..middle] + [events[middle]], events[middle + 1..end]);
    ToolsOfConcat(events[start..middle], [events[middle]]);
    assert Init([events[middle]]) == [];
  }

  lemma UsageIsNoTool(message: Object)
    requires Get(message, "method") == Str(USAGE_METHOD)
    ensures !IsToolCompletion(message)
  {
  }

  lemma {:induction false} ToolCallsOfPrefix(a: Accounting, ledger: LedgerState, n: nat)
    requires MarksExact(a.events, ledger, a.usage) && 0 < n <= |a.usage|
    ensures a.usage[0].index + 1 <= IntervalEnd(a, n - 1) <= |a.events|
    ensures Aggregate(RequestsUpTo(a, n)).toolCalls == Tools(a.events[a.usage[0].index + 1..IntervalEnd(a, n - 1)])
  {
    hide Tools, Round, IsToolCompletion, Aggregate, RequestsUpTo;
    var first, last, end := a.usage[0].index + 1, a.usage[n - 1].index, IntervalEnd(a, n - 1);
    assert MarkExact(a.events, ledger, a.usage[0], 0) && MarkExact(a.events, ledger, a.usage[n - 1], n - 1);
    if n < |a.usage| {
      assert MarkExact(a.events, ledger, a.usage[n], n);
    }
    assert last < end <= |a.events|;
    assert Slice(a.events, last + 1, end) == a.events[last + 1..end];
    AggregateNext(a, n);
    if n == 1 {
      NothingAggregated();
      assert RequestsUpTo(a, 0) == [] by { assert |RequestsUpTo(a, 0)| == 0; }
    } else {
      ToolCallsOfPrefix(a, ledger, n - 1);
      assert IntervalEnd(a, n - 2) == last;
      UsageIsNoTool(a.events[last].message);
      ToolsAcross(a.events, first, last, end);
    }
  }

  /** Every tool completion after the first accepted usage event is counted exactly once. */
  lemma ToolCallsPartition(a: Accounting, ledger: LedgerState)
    requires Accounts(a, ledger) && TelemetryOf(a).Ok?
    ensures a.usage[0].index < |a.events|
    ensures Aggregate(TelemetryOf(a).value).toolCalls == Tools(a.events[a.usage[0].index + 1..])
  {
    hide Aggregate, Tools, RequestsUpTo, WellNumbered;
    assert MarkExact(a.events, ledger, a.usage[0], 0);
    ToolCallsOfPrefix(a, ledger, |a.usage|);
    assert IntervalEnd(a, |a.usage| - 1) == |a.events|;
    assert TelemetryOf(a).value == RequestsUpTo(a, |a.usage|);
    assert a.events[a.usage[0].index + 1..|a.events|] == a.events[a.usage[0].index + 1..];
  }

  /** The tool completions at positions from lo to before hi. */
  ghost function CompletionsFrom(events: seq<Timed>, lo: nat, hi: nat): set<nat>
    requires hi <= |events|
  {
    set i: nat | lo <= i < hi && IsToolCompletion(events[i].message)
  }

  lemma CompletionsNext(events: seq<Timed>, lo: nat, hi: nat)
    requires lo <= hi < |events|
    ensures var before := CompletionsFrom(events, lo, hi);
      && hi !in before
      && CompletionsFrom(events, lo, hi + 1) == if IsToolCompletion(events[hi].message) then before + {hi} else before
  {
    hide IsToolCompletion;
  }

  lemma ToolsNext(events: seq<Timed>, lo: nat, hi: nat)
    requires lo <= hi < |events|
    ensures Tools(events[lo..hi + 1]) == Tools(events[lo..hi]) + if IsToolCompletion(events[hi].message) then 1 else 0
  {
    hide IsToolCompletion;
    assert Init(events[lo..hi + 1]) == events[lo..hi] && Last(events[lo..hi + 1]) == events[hi];
  }

  lemma NoCompletions(events: seq<Timed>, lo: nat)
    requires lo <= |events|
    ensures Tools(events[lo..lo]) == 0 && CompletionsFrom(events, lo, lo) == {}
  {
    assert events[lo..lo] == [];
  }

  lemma {:induction false} ToolsAreCompletions(events: seq<Timed>, lo: nat, hi: nat)
    requires lo <= hi <= |events|
    ensures Tools(events[lo..hi]) == |CompletionsFrom(events, lo, hi)|
  {
    hide IsToolCompletion, Tools, CompletionsFrom;
    if lo == hi {
      NoCompletions(events, lo);
    } else {
      ToolsAreCompletions(events, lo, hi - 1);
      CompletionsNext(events, lo, hi - 1);
      ToolsNext(events, lo, hi - 1);
    }
  }

  /** An item of this kind is completed. */
  function ItemCompleted(kind: string): Object {
    map["method" := Str("item/completed"), "params" := Obj(map["item" := Obj(map["type" := Str(kind)])])]
  }

  /** Exactly five kinds of items are tool uses. */
  lemma ToolKinds(kind: string)
    ensures IsToolCompletion(ItemCompleted(kind)) <==>
      kind == "commandExecution" || kind == "fileChange" || kind == "mcpToolCall" || kind == "dynamicToolCall" || kind == "functionCall"
  {
    assert Get(ItemCompleted(kind), "params") == Obj(map["item" := Obj(map["type" := Str(kind)])]);
  }

  /**
    One request: the tokens of its own mark, the tool completions strictly between that mark and the
    next one or the end of the run, and the time since the mark before, rounded.
   */
  ghost predicate ChargedAt(a: Accounting, j: nat, u: TokenUsage)
    requires j < |a.usage|
  {
    var mark, last := a.usage[j], a.usage[j].entry.last;
    var end := if j + 1 < |a.usage| then a.usage[j + 1].index else |a.events|;
    var since := if j == 0 then mark.at else mark.at - a.usage[j - 1].at;
    && end <= |a.events| && u.toolCalls == |CompletionsFrom(a.events, mark.index + 1, end)|
    && Near(u.elapsedMs, if since > 0.0 then since else 0.0, MILLIS, 1)
    && u.inputTokens == last.input && u.outputTokens == last.output && u.reasoningOutputTokens == Some(last.reasoning)
    && u.cachedTokens == u.cachedInputTokens == last.cached && u.cacheWriteInputTokens == last.cacheWrite
    && u.cacheAdjustedInputTokens + last.cached == last.input && u.contextTokens + u.taskTokens == last.input
    && u.taskTokens == (if j == 0 then a.taskTokens else 0) && u.requests == 1 && u.usd == Some(0.0)
  }

  lemma RequestIsChargedAt(a: Accounting, ledger: LedgerState, j: nat)
    requires MarksExact(a.events, ledger, a.usage) && j < |a.usage|
    ensures ChargedAt(a, j, RequestAt(a, j))
  {
    hide Tools, Round, IsToolCompletion;
    var start, end := a.usage[j].index + 1, IntervalEnd(a, j);
    assert MarkExact(a.events, ledger, a.usage[j], j);
    if j + 1 < |a.usage| {
      assert MarkExact(a.events, ledger, a.usage[j + 1], j + 1);
    }
    assert Slice(a.events, start, end) == a.events[start..end];
    ToolsAreCompletions(a.events, start, end);
    RoundIsClose(Max(0.0, a.usage[j].at - PreviousAt(a.usage, j)), MILLIS);
  }

  lemma {:induction false} RequestsInOrder(a: Accounting, n: nat, j: nat)
    requires j < n <= |a.usage|
    ensures RequestsUpTo(a, n)[j] == RequestAt(a, j)
  {
    hide RequestAt;
    if j < n - 1 {
      RequestsInOrder(a, n - 1, j);
    }
  }

  /** There is one request per accepted usage, charged from its own mark. */
  lemma EachRequestIsCharged(a: Accounting, ledger: LedgerState)
    requires Accounts(a, ledger) && TelemetryOf(a).Ok?
    ensures |TelemetryOf(a).value| == |a.usage|
    ensures forall j :: 0 <= j < |a.usage| ==> ChargedAt(a, j, TelemetryOf(a).value[j])
  {
    hide ChargedAt, RequestAt, RequestsUpTo, MarksExact, WellNumbered;
    forall j | 0 <= j < |a.usage|
      ensures ChargedAt(a, j, TelemetryOf(a).value[j])
    {
      RequestsInOrder(a, |a.usage|, j);
      RequestIsChargedAt(a, ledger, j);
    }
  }

  // ---------------------------------------------------------------- elapsed time

  /** Clock readings that start at or after zero and never go back. */
  ghost predicate ClockMonotone(usage: seq<UsageMark>) {
    forall j {:trigger PreviousAt(usage, j)} :: 0 <= j < |usage| ==> PreviousAt(usage, j) <= usage[j].at
  }

  /** The unrounded intervals of the first n requests. */
  function Intervals(usage: seq<UsageMark>, n: nat): real
    requires n <= |usage|
  {
    if n == 0 then 0.0 else Intervals(usage, n - 1) + Max(0.0, usage[n - 1].at - PreviousAt(usage, n - 1))
  }

  /** Unrounded, the intervals telescope to the last observed time. */
  lemma {:induction false} IntervalsTelescope(usage: seq<UsageMark>, n: nat)
    requires ClockMonotone(usage) && n <= |usage|
    ensures Intervals(usage, n) == PreviousAt(usage, n)
  {
    if n > 0 {
      IntervalsTelescope(usage, n - 1);
      assert PreviousAt(usage, n - 1) <= usage[n - 1].at;
    }
  }

  lemma RoundedSumDrift(total: real, interval: real)
    requires Quantized(total, MILLIS)
    ensures Abs(Round(total + Round(interval, MILLIS), MILLIS) - (total + interval)) * MILLIS <= 0.5
  {
    RoundedIsQuantized(interval, MILLIS);
    QuantizedSum(total, Round(interval, MILLIS), MILLIS);
    RoundKeepsQuantized(total + Round(interval, MILLIS), MILLIS);
    RoundIsClose(interval, MILLIS);
  }

  lemma ElapsedOfNext(a: Accounting, n: nat)
    requires 0 < n <= |a.usage|
    ensures Aggregate(RequestsUpTo(a, n)).elapsedMs == Round(
      Aggregate(RequestsUpTo(a, n - 1)).elapsedMs +
      Round(Max(0.0, a.usage[n - 1].at - PreviousAt(a.usage, n - 1)), MILLIS), MILLIS)
  {
    hide Round, Max, PreviousAt, Tools, Slice, Aggregate, RequestsUpTo;
    AggregateNext(a, n);
  }

  lemma {:induction false} ElapsedDrift(a: Accounting, n: nat)
    requires n <= |a.usage|
    ensures Abs(Aggregate(RequestsUpTo(a, n)).elapsedMs - Intervals(a.usage, n)) * MILLIS <= n as real * 0.5
  {
    hide Round, Quantized, Aggregate, Max, PreviousAt;
    if n == 0 {
      NothingAggregated();
    } else {
      ElapsedDrift(a, n - 1);
      var total := Aggregate(RequestsUpTo(a, n - 1)).elapsedMs;
      var interval := Max(0.0, a.usage[n - 1].at - PreviousAt(a.usage, n - 1));
      AggregateIsRounded(RequestsUpTo(a, n - 1));
      RoundedSumDrift(total, interval);
      ElapsedOfNext(a, n);
    }
  }

  /** The aggregate elapsed time is within half a microsecond per request of the last observed time. */
  lemma ElapsedBound(a: Accounting)
    requires ClockMonotone(a.usage) && TelemetryOf(a).Ok?
    ensures Abs(Aggregate(TelemetryOf(a).value).elapsedMs - Last(a.usage).at) <= |a.usage| as real * 0.0005
  {
    hide Aggregate, RequestsUpTo, Intervals;
    ElapsedDrift(a, |a.usage|);
    IntervalsTelescope(a.usage, |a.usage|);
  }

  // ---------------------------------------------------------------- end to end

  predicate CachedInside(ledger: LedgerState) {
    forall j :: 0 <= j < |ledger.accepted| ==> ledger.accepted[j].last.cached <= ledger.accepted[j].last.input
  }

  lemma NotificationCachedInside(message: Object)
    requires ReadNotification(message).Ok? && ReadNotification(message).value.Some?
    ensures var last := ReadNotification(message).value.value.last; last.cached <= last.input
  {
    hide FromAppServer;
  }

  lemma {:induction false} TrackedCachedInside(events: seq<Timed>)
    requires Tracked(events).Ok?
    ensures CachedInside(Tracked(events).value.0)
  {
    hide ReadNotification;
    if events != [] {
      TrackedCachedInside(Init(events));
      var message := Last(events).message;
      if ReadNotification(message).Ok? && ReadNotification(message).value.Some? {
        NotificationCachedInside(message);
      }
    }
  }

  /** A record that the validator, the envelope and the wire all take as it is. */
  predicate Flawless(u: TokenUsage, tags: Tags) {
    AcceptableRequest(u) && WireExact(u) && Metered(u) && TagsOf(u) == tags
  }

  function TagsOfRun(a: Accounting): Tags {
    Tags(Str(a.pricingId), Str(a.provider), Str(a.model))
  }

  lemma RequestIsFlawless(a: Accounting, j: nat)
    requires j < |a.usage| && TaskShare(a, j) <= a.usage[j].entry.last.input
    requires a.usage[j].entry.last.cached <= a.usage[j].entry.last.input
    ensures Flawless(RequestAt(a, j), TagsOfRun(a))
  {
    hide Round, Tools, Slice;
    RoundNonNegative(Max(0.0, a.usage[j].at - PreviousAt(a.usage, j)), MILLIS);
  }

  ghost predicate AllFlawless(requests: seq<TokenUsage>, tags: Tags) {
    forall j :: 0 <= j < |requests| ==> Flawless(requests[j], tags)
  }

  lemma {:induction false} RequestsAreFlawless(a: Accounting, ledger: LedgerState, n: nat)
    requires MarksExact(a.events, ledger, a.usage) && CachedInside(ledger) && n <= |a.usage|
    requires n > 0 ==> a.taskTokens <= a.usage[0].entry.last.input
    ensures AllFlawless(RequestsUpTo(a, n), TagsOfRun(a))
  {
    hide Flawless, RequestAt;
    if n > 0 {
      RequestsAreFlawless(a, ledger, n - 1);
      assert MarkExact(a.events, ledger, a.usage[n - 1], n - 1);
      RequestIsFlawless(a, n - 1);
    }
  }

  /** Flawless requests with their own aggregate pass the envelope check and the wire unchanged. */
  lemma FlawlessTelemetryIsAccepted(requests: seq<TokenUsage>, tags: Tags, completed: bool)
    requires requests != [] && AllFlawless(requests, tags)
    ensures TagsOf(Aggregate(requests)) == tags
    ensures EnvelopeTelemetryProblems(requests, Aggregate(requests)) == []
    ensures ParsedTelemetry(Obj(EmitTelemetry(requests)), completed) == Ok((requests, Aggregate(requests)))
  {
    hide Aggregate, EnvelopeTelemetryProblems, ParsedTelemetry, EmitTelemetry, AcceptableRequest, WireExact;
    EnvelopeAccepted(requests, Aggregate(requests));
    WireRoundTrip(requests, completed);
    assert AllWireExact(requests) by {
      forall i | 0 <= i < |requests|
        ensures WireExact(requests[i])
      {
        assert Flawless(requests[i], tags);
      }
    }
    assert forall i :: 0 <= i < |requests| ==> Flawless(requests[i], tags);
    SharedTagsAreKept(requests, tags);
  }

  /** The accounting of a completed app-server run. */
  function AccountingOf(run: AppServerRun, config: Config, taskTokens: nat, pricingId: string): Accounting {
    Accounting(run.events, run.usage, taskTokens, config.provider, config.model, pricingId)
  }

  /**
    The whole pipeline, for every inbox: whatever requests the accounting emits for a completed run,
    their aggregate charges exactly the last total the server reported, counts every tool completion
    after the first accepted usage event once, raises no envelope problem, and reaches the receiver of
    the v2 wire unchanged.
   */
  lemma PipelineIsExact(config: Config, prompt: string, inbox: seq<Timed>, taskTokens: nat, pricingId: string, completed: bool)
    requires RunOf(config, prompt, inbox).0.Ok?
    requires TelemetryOf(AccountingOf(RunOf(config, prompt, inbox).0.value, config, taskTokens, pricingId)).Ok?
    ensures
      var run := RunOf(config, prompt, inbox).0.value;
      var requests := TelemetryOf(AccountingOf(run, config, taskTokens, pricingId)).value;
      var reported := Notifications(run.events);
      && Charges(Aggregate(requests), Reported(reported, |reported|), taskTokens, |NewTotals(reported)|)
      && run.usage != [] && run.usage[0].index < |run.events|
      && Aggregate(requests).toolCalls == Tools(run.events[run.usage[0].index + 1..])
      && TagsOf(Aggregate(requests)) == Tags(Str(pricingId), Str(config.provider), Str(config.model))
      && EnvelopeTelemetryProblems(requests, Aggregate(requests)) == []
      && ParsedTelemetry(Obj(EmitTelemetry(requests)), completed) == Ok((requests, Aggregate(requests)))
  {
    hide RunOf, Aggregate, Charges, Tools, EnvelopeTelemetryProblems, ParsedTelemetry, EmitTelemetry, RequestsUpTo,
         WellNumbered, MarksExact, Reconciles, Replay, Notifications, NewTotals, Reported, Tracked, AllParse,
         CachedInside, AllFlawless;
    CompletedRunIsTracked(config, prompt, inbox);
    var (r, end) := RunOf(config, prompt, inbox);
    var a := AccountingOf(r.value, config, taskTokens, pricingId);
    LedgerExactness(Notifications(end.events));
    Conservation(a, end.ledger);
    ToolCallsPartition(a, end.ledger);
    RequestsAreFlawless(a, end.ledger, |a.usage|);
    FlawlessTelemetryIsAccepted(TelemetryOf(a).value, TagsOfRun(a), completed);
  }

  lemma CompletedRunIsTracked(config: Config, prompt: string, inbox: seq<Timed>)
    requires RunOf(config, prompt, inbox).0.Ok?
    ensures var (r, end) := RunOf(config, prompt, inbox);
      && r.value.events == end.events && r.value.usage == end.usage
      && Replay(Notifications(end.events)) == Ok(end.ledger)
      && WellNumbered(end.ledger) && MarksExact(end.events, end.ledger, end.usage) && CachedInside(end.ledger)
  {
    hide RunOf, WellNumbered, MarksExact, Replay, Notifications, CachedInside, Tracked, AllParse, Reconciles;
    UsageAccountingIsExact(config, prompt, inbox);
    RunSettles(config, prompt, inbox);
    TrackedCachedInside(RunOf(config, prompt, inbox).1.events);
  }

  /**
    A completed run is accounted, and not refused, exactly when the server reported some new total and
    the task tokens fit into the input of the first request.
   */
  lemma RunIsAccountedIff(config: Config, prompt: string, inbox: seq<Timed>, taskTokens: nat, pricingId: string)
    requires RunOf(config, prompt, inbox).0.Ok?
    ensures
      var run := RunOf(config, prompt, inbox).0.value;
      var reported := Notifications(run.events);
      TelemetryOf(AccountingOf(run, config, taskTokens, pricingId)).Ok? <==>
        NewTotals(reported) != [] && taskTokens <= reported[NewTotals(reported)[0]].last.input
  {
    hide RunOf, RequestsUpTo, WellNumbered, Replay, Notifications, NewTotals, Tracked, AllParse, CachedInside, Reconciles;
    CompletedRunIsTracked(config, prompt, inbox);
    var (r, end) := RunOf(config, prompt, inbox);
    LedgerExactness(Notifications(end.events));
    if r.value.usage != [] {
      assert MarkExact(end.events, end.ledger, end.usage[0], 0);
    }
  }
}

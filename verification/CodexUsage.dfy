/** benchmarks/harness/codex_usage.py: usage breakdowns and the cumulative ledger. */
module CodexUsage {
  import opened Prelude
  import opened JsonValues

  const USAGE_METHOD := "thread/tokenUsage/updated"

  datatype LedgerError =
    | BreakdownNotObject
    | FieldNotCount(field: string)
    | CachedExceedsInput
    | Backwards
    | UnattributedChange
    | DeltaMismatch
    | ZeroAdvance
    | ParamsNotObject
    | TokenUsageMissing

  datatype UsageBreakdown = UsageBreakdown(
    input: nat, cached: nat, cacheWrite: nat, output: nat, reasoning: nat, total: nat)
  {
    function Plus(other: UsageBreakdown): UsageBreakdown {
      UsageBreakdown(input + other.input, cached + other.cached, cacheWrite + other.cacheWrite,
                     output + other.output, reasoning + other.reasoning, total + other.total)
    }

    predicate Covers(other: UsageBreakdown) {
      input >= other.input && cached >= other.cached && cacheWrite >= other.cacheWrite &&
      output >= other.output && reasoning >= other.reasoning && total >= other.total
    }

    /** `self.subtract(other)`: raises when any component would be negative. */
    function Subtract(other: UsageBreakdown): (r: Result<UsageBreakdown, LedgerError>)
      ensures r.Ok? <==> Covers(other)
    {
      if Covers(other) then
        Ok(UsageBreakdown(input - other.input, cached - other.cached, cacheWrite - other.cacheWrite,
                          output - other.output, reasoning - other.reasoning, total - other.total))
      else Err(Backwards)
    }

    predicate IsZero() {
      input == 0 && cached == 0 && cacheWrite == 0 && output == 0 && reasoning == 0 && total == 0
    }
  }

  const ZERO := UsageBreakdown(0, 0, 0, 0, 0, 0)

  /** One field of `from_app_server`; only the cache-write count may be missing. */
  function Count(value: Object, field: string): Result<nat, LedgerError> {
    var raw := GetOr(value, field, if field == "cacheWriteInputTokens" then Int(0) else Null);
    if raw.Int? && raw.n >= 0 then Ok(raw.n) else Err(FieldNotCount(field))
  }

  /** `UsageBreakdown.from_app_server`. The fields are read in the order in which the source lists them. */
  function FromAppServer(value: Json): (r: Result<UsageBreakdown, LedgerError>)
    ensures r.Ok? ==> r.value.cached <= r.value.input
  {
    if !value.Obj? then Err(BreakdownNotObject) else
    var o := value.fields;
    var input := Count(o, "inputTokens");
    if input.Err? then Err(input.error) else
    var cached := Count(o, "cachedInputTokens");
    if cached.Err? then Err(cached.error) else
    var cacheWrite := Count(o, "cacheWriteInputTokens");
    if cacheWrite.Err? then Err(cacheWrite.error) else
    var output := Count(o, "outputTokens");
    if output.Err? then Err(output.error) else
    var reasoning := Count(o, "reasoningOutputTokens");
    if reasoning.Err? then Err(reasoning.error) else
    var total := Count(o, "totalTokens");
    if total.Err? then Err(total.error) else
    if cached.value > input.value then Err(CachedExceedsInput) else
    Ok(UsageBreakdown(input.value, cached.value, cacheWrite.value, output.value, reasoning.value, total.value))
  }

  /** A breakdown as the app-server sends it. */
  function BreakdownObject(u: UsageBreakdown): Object {
    map["inputTokens" := Int(u.input), "cachedInputTokens" := Int(u.cached), "cacheWriteInputTokens" := Int(u.cacheWrite),
        "outputTokens" := Int(u.output), "reasoningOutputTokens" := Int(u.reasoning), "totalTokens" := Int(u.total)]
  }

  /** Every field is read from its own key; a breakdown is refused only for caching more than its input. */
  lemma BreakdownRoundTrip(u: UsageBreakdown)
    ensures FromAppServer(Obj(BreakdownObject(u))) == if u.cached <= u.input then Ok(u) else Err(CachedExceedsInput)
  {
    var o := BreakdownObject(u);
    assert Count(o, "inputTokens") == Ok(u.input) && Count(o, "cachedInputTokens") == Ok(u.cached);
    assert Count(o, "cacheWriteInputTokens") == Ok(u.cacheWrite) && Count(o, "outputTokens") == Ok(u.output);
    assert Count(o, "reasoningOutputTokens") == Ok(u.reasoning) && Count(o, "totalTokens") == Ok(u.total);
  }

  /** A missing cache-write count reads as zero, any other missing count is refused. */
  lemma MissingCount(u: UsageBreakdown, field: string)
    requires u.cached <= u.input && field in BreakdownObject(u)
    ensures var r := FromAppServer(Obj(BreakdownObject(u) - {field}));
      if field == "cacheWriteInputTokens" then r == Ok(u.(cacheWrite := 0)) else r == Err(FieldNotCount(field))
  {
    var o := BreakdownObject(u) - {field};
    assert field != "inputTokens" ==> Count(o, "inputTokens") == Ok(u.input);
    assert field != "cachedInputTokens" ==> Count(o, "cachedInputTokens") == Ok(u.cached);
    assert Count(o, "cacheWriteInputTokens") == Ok(if field == "cacheWriteInputTokens" then 0 else u.cacheWrite);
    assert field != "outputTokens" ==> Count(o, "outputTokens") == Ok(u.output);
    assert field != "reasoningOutputTokens" ==> Count(o, "reasoningOutputTokens") == Ok(u.reasoning);
    assert field != "totalTokens" ==> Count(o, "totalTokens") == Ok(u.total);
    assert field != "cacheWriteInputTokens" ==> Count(o, field) == Err(FieldNotCount(field));
  }

  datatype AcceptedUsage = AcceptedUsage(last: UsageBreakdown, total: UsageBreakdown, sequence: nat)

  /** A usage notification after parsing: the request's own usage and the running total. */
  datatype Notification = Notification(last: UsageBreakdown, total: UsageBreakdown)

  /** The three fields of a ledger, as a value. */
  datatype LedgerState = LedgerState(total: Option<UsageBreakdown>, sequence: nat, accepted: seq<AcceptedUsage>)
  {
    function Running(): UsageBreakdown {
      if total.Some? then total.value else ZERO
    }

    function Advance(n: Notification): LedgerState {
      LedgerState(Some(n.total), sequence + 1, accepted + [AcceptedUsage(n.last, n.total, sequence + 1)])
    }
  }

  const EMPTY_LEDGER := LedgerState(None, 0, [])

  predicate Repeats(running: UsageBreakdown, n: Notification) {
    n.total == running
  }

  predicate Advances(running: UsageBreakdown, n: Notification) {
    n.total != running && n.total == running.Plus(n.last)
  }

  /** What `accept` promises about its result `r` and the ledger it leaves behind. */
  ghost predicate AcceptedAs(before: LedgerState, n: Notification, r: Result<Option<AcceptedUsage>, LedgerError>, after: LedgerState) {
    if Repeats(before.Running(), n) then r == Ok(None) && after == before
    else if Advances(before.Running(), n) then
      r == Ok(Some(AcceptedUsage(n.last, n.total, before.sequence + 1))) && after == before.Advance(n)
    else
      r == Err(if n.total.Covers(before.Running()) then DeltaMismatch else Backwards) && after == before
  }

  /** The difference of two totals is zero on a repeat and equals `last` on an advance by `last`. */
  lemma DifferenceDecides(previous: UsageBreakdown, last: UsageBreakdown, newTotal: UsageBreakdown, delta: UsageBreakdown)
    requires newTotal.Subtract(previous) == Ok(delta)
    ensures delta.IsZero() <==> newTotal == previous
    ensures delta == last <==> newTotal == previous.Plus(last)
  {
  }

  class UsageLedger {
    var total: Option<UsageBreakdown>
    var sequence: nat
    var accepted: seq<AcceptedUsage>

    function State(): LedgerState
      reads this
    {
      LedgerState(total, sequence, accepted)
    }

    constructor ()
      ensures State() == EMPTY_LEDGER
    {
      total, sequence, accepted := None, 0, [];
    }

    /**
      `accept`: a repeat of the running total changes nothing, an advance by exactly `last` is
      recorded, anything else raises and changes nothing. The guards for an unattributed change
      and for a zero advance are in the body and never raise.
     */
    method Accept(last: UsageBreakdown, newTotal: UsageBreakdown) returns (r: Result<Option<AcceptedUsage>, LedgerError>)
      modifies this
      ensures AcceptedAs(old(State()), Notification(last, newTotal), r, State())
    {
      var previous := if total.Some? then total.value else ZERO;
      var difference := newTotal.Subtract(previous);
      if difference.Err? {
        r := Err(difference.error);
      } else {
        var delta := difference.value;
        DifferenceDecides(previous, last, newTotal, delta);
        if delta.IsZero() {
          r := if newTotal != previous then Err(UnattributedChange) else Ok(None);
        } else if delta != last {
          r := Err(DeltaMismatch);
        } else if last.IsZero() {
          r := Err(ZeroAdvance);
        } else {
          sequence := sequence + 1;
          var entry := AcceptedUsage(last, newTotal, sequence);
          total := Some(newTotal);
          accepted := accepted + [entry];
          r := Ok(Some(entry));
        }
      }
    }
  }

  /** The parsing half of `accept_notification`; `None` for a message that is no usage notification. */
  function ReadNotification(message: Object): Result<Option<Notification>, LedgerError> {
    if Get(message, "method") != Str(USAGE_METHOD) then Ok(None) else
    var params := Get(message, "params");
    if !params.Obj? then Err(ParamsNotObject) else
    var usage := Get(params.fields, "tokenUsage");
    if !usage.Obj? then Err(TokenUsageMissing) else
    var last := FromAppServer(Get(usage.fields, "last"));
    if last.Err? then Err(last.error) else
    var total := FromAppServer(Get(usage.fields, "total"));
    if total.Err? then Err(total.error) else
    Ok(Some(Notification(last.value, total.value)))
  }

  /** A usage notification as the app-server sends it. */
  function NotificationMessage(n: Notification): Object {
    map["method" := Str(USAGE_METHOD), "params" := Obj(map["tokenUsage" := Obj(map[
      "last" := Obj(BreakdownObject(n.last)), "total" := Obj(BreakdownObject(n.total))])])]
  }

  /** A well-formed notification is read back as it was meant. */
  lemma NotificationRoundTrip(n: Notification)
    requires n.last.cached <= n.last.input && n.total.cached <= n.total.input
    ensures ReadNotification(NotificationMessage(n)) == Ok(Some(n))
  {
    hide FromAppServer, BreakdownObject;
    BreakdownRoundTrip(n.last);
    BreakdownRoundTrip(n.total);
    var message := NotificationMessage(n);
    var usage := Get(Get(message, "params").fields, "tokenUsage").fields;
    assert Get(usage, "last") == Obj(BreakdownObject(n.last)) && Get(usage, "total") == Obj(BreakdownObject(n.total));
  }

  /** Exactly what is read as a breakdown: six counts under their keys, cache writes perhaps missing, no more cached than input. */
  lemma BreakdownReadIff(value: Json, u: UsageBreakdown)
    ensures FromAppServer(value) == Ok(u) <==>
      && value.Obj? && u.cached <= u.input
      && Get(value.fields, "inputTokens") == Int(u.input) && Get(value.fields, "cachedInputTokens") == Int(u.cached)
      && GetOr(value.fields, "cacheWriteInputTokens", Int(0)) == Int(u.cacheWrite) && Get(value.fields, "outputTokens") == Int(u.output)
      && Get(value.fields, "reasoningOutputTokens") == Int(u.reasoning) && Get(value.fields, "totalTokens") == Int(u.total)
  {
  }

  /** Exactly what is read as a notification; no usage message is passed over. */
  lemma NotificationReadIff(message: Object, n: Notification)
    ensures ReadNotification(message) == Ok(None) <==> Get(message, "method") != Str(USAGE_METHOD)
    ensures ReadNotification(message) == Ok(Some(n)) <==>
      && Get(message, "method") == Str(USAGE_METHOD) && GetIn(message, "params", "tokenUsage").Obj?
      && FromAppServer(Get(GetIn(message, "params", "tokenUsage").fields, "last")) == Ok(n.last)
      && FromAppServer(Get(GetIn(message, "params", "tokenUsage").fields, "total")) == Ok(n.total)
  {
    hide FromAppServer;
  }

  /** What one notification does to a ledger, said by addition only. */
  function Step(ledger: LedgerState, n: Notification): Result<LedgerState, LedgerError> {
    if Repeats(ledger.Running(), n) then Ok(ledger)
    else if Advances(ledger.Running(), n) then Ok(ledger.Advance(n))
    else Err(if n.total.Covers(ledger.Running()) then DeltaMismatch else Backwards)
  }

  /** What one JSON-RPC message does to a ledger. */
  function Observe(ledger: LedgerState, message: Object): Result<LedgerState, LedgerError> {
    match ReadNotification(message)
    case Err(e) => Err(e)
    case Ok(None) => Ok(ledger)
    case Ok(Some(n)) => Step(ledger, n)
  }

  /** `accept_notification`. */
  method AcceptNotification(ledger: UsageLedger, message: Object) returns (r: Result<Option<AcceptedUsage>, LedgerError>)
    modifies ledger
    ensures var before := old(ledger.State()); var after := Observe(before, message);
      && (r.Ok? <==> after.Ok?)
      && ledger.State() == (if after.Ok? then after.value else before)
      && (r.Err? ==> r.error == after.error)
      && (r.Ok? ==> ledger.accepted == before.accepted + (if r.value.Some? then [r.value.value] else []))
  {
    var parsed := ReadNotification(message);
    if parsed.Err? {
      return Err(parsed.error);
    }
    if parsed.value.None? {
      return Ok(None);
    }
    r := ledger.Accept(parsed.value.value.last, parsed.value.value.total);
  }

  // ---------------------------------------------------------------- whole notification streams

  /** A fresh ledger after a whole stream of notifications. */
  function Replay(ns: seq<Notification>): Result<LedgerState, LedgerError> {
    if ns == [] then Ok(EMPTY_LEDGER) else
    match Replay(Init(ns))
    case Err(e) => Err(e)
    case Ok(ledger) => Step(ledger, Last(ns))
  }

  /** The total reported immediately before notification i, whether or not it was a repeat. */
  function Reported(ns: seq<Notification>, i: nat): UsageBreakdown
    requires i <= |ns|
  {
    if i == 0 then ZERO else ns[i - 1].total
  }

  /** Notification i repeats the total reported just before it, or advances it by its own `last`. */
  predicate Settles(ns: seq<Notification>, i: nat)
    requires i < |ns|
  {
    ns[i].total == Reported(ns, i) || ns[i].total == Reported(ns, i).Plus(ns[i].last)
  }

  ghost predicate Reconciles(ns: seq<Notification>) {
    forall i: nat {:trigger Settles(ns, i)} :: i < |ns| ==> Settles(ns, i)
  }

  /** Notification i does not repeat the total reported just before it. */
  predicate IsNew(ns: seq<Notification>, i: nat)
    requires i < |ns|
  {
    ns[i].total != Reported(ns, i)
  }

  /** The positions that do not repeat the previous total. */
  function NewTotals(ns: seq<Notification>): (r: seq<nat>)
    ensures forall j :: 0 <= j < |r| ==> r[j] < |ns| && IsNew(ns, r[j])
    ensures forall j, k :: 0 <= j < k < |r| ==> r[j] < r[k]
  {
    if ns == [] then [] else
    var front := NewTotals(Init(ns));
    assert forall j :: 0 <= j < |front| ==> IsNew(Init(ns), front[j]) && IsNew(ns, front[j]);
    if IsNew(ns, |ns| - 1) then front + [|ns| - 1] else front
  }

  lemma {:induction false} NewTotalsComplete(ns: seq<Notification>, i: nat)
    requires i < |ns| && IsNew(ns, i)
    ensures i in NewTotals(ns)
  {
    if i < |ns| - 1 {
      assert IsNew(Init(ns), i);
      NewTotalsComplete(Init(ns), i);
    }
  }

  function SumOfLasts(entries: seq<AcceptedUsage>): UsageBreakdown {
    if entries == [] then ZERO else SumOfLasts(Init(entries)).Plus(Last(entries).last)
  }

  /** Entry j is numbered j+1 and its total is the sum of the first j+1 lasts. */
  predicate EntryExact(accepted: seq<AcceptedUsage>, j: nat)
    requires j < |accepted|
  {
    accepted[j].sequence == j + 1 && accepted[j].total == SumOfLasts(accepted[..j + 1])
  }

  ghost predicate WellNumbered(ledger: LedgerState) {
    && ledger.sequence == |ledger.accepted|
    && ledger.Running() == SumOfLasts(ledger.accepted)
    && (ledger.total.None? <==> ledger.accepted == [])
    && forall j: nat {:trigger EntryExact(ledger.accepted, j)} :: j < |ledger.accepted| ==> EntryExact(ledger.accepted, j)
  }

  lemma AppendKeepsEntries(accepted: seq<AcceptedUsage>, entry: AcceptedUsage, j: nat)
    requires j < |accepted|
    ensures EntryExact(accepted + [entry], j) == EntryExact(accepted, j)
  {
    assert (accepted + [entry])[..j + 1] == accepted[..j + 1];
  }

  lemma StepKeepsNumbering(ledger: LedgerState, n: Notification)
    requires WellNumbered(ledger)
    ensures Step(ledger, n).Ok? ==> WellNumbered(Step(ledger, n).value)
  {
    if Advances(ledger.Running(), n) {
      var entry := AcceptedUsage(n.last, n.total, ledger.sequence + 1);
      var after := ledger.accepted + [entry];
      assert Init(after) == ledger.accepted && after[..|after|] == after;
      assert SumOfLasts(after) == n.total;
      hide SumOfLasts;
      forall j: nat | j < |after|
        ensures EntryExact(after, j)
      {
        if j < |ledger.accepted| {
          AppendKeepsEntries(ledger.accepted, entry, j);
        }
      }
    }
  }

  /** Dropping the last notification changes nothing about the earlier ones. */
  lemma ReconcilesStep(ns: seq<Notification>)
    requires ns != []
    ensures Reconciles(ns) <==> Reconciles(Init(ns)) && Settles(ns, |ns| - 1)
  {
    forall i: nat | i < |ns| - 1
      ensures Settles(ns, i) <==> Settles(Init(ns), i)
    {
    }
  }

  /**
    Ledger exactness. A stream is consumed without error exactly when it reconciles; the accepted
    list is then the stream without its repeats, numbered from 1, with prefix-sum totals, and the
    running total is the last total reported.
   */
  lemma {:induction false} LedgerExactness(ns: seq<Notification>)
    ensures Replay(ns).Ok? <==> Reconciles(ns)
    ensures Replay(ns).Ok? ==>
      var ledger, kept := Replay(ns).value, NewTotals(ns);
      && WellNumbered(ledger)
      && ledger.Running() == Reported(ns, |ns|)
      && |ledger.accepted| == |kept|
      && forall j :: 0 <= j < |kept| ==> ledger.accepted[j] == AcceptedUsage(ns[kept[j]].last, ns[kept[j]].total, j + 1)
  {
    if ns != [] {
      var front := Init(ns);
      LedgerExactness(front);
      ReconcilesStep(ns);
      assert Reported(ns, |front|) == Reported(front, |front|);
      if Replay(front).Ok? {
        StepKeepsNumbering(Replay(front).value, Last(ns));
      }
    }
  }
}

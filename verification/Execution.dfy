/** benchmarks/harness/execution.py: telemetry validation, of one record and of a whole run envelope. */
module Execution {
  import opened Prelude
  import opened JsonValues
  import opened Rounding
  import opened TokenModel

  const ANTHROPIC := Str("anthropic")

  datatype Where = Request(index: nat) | Total

  datatype Complaint = MustBeInteger | MustBeNumber | MustBeNonNegative | RequestsZero | ExceedsInput | MustEqualOne | TotalDiffers

  datatype Problem = Problem(at: Where, field: string, complaint: Complaint)

  function CountProblems(at: Where, field: string, value: int): seq<Problem> {
    if value < 0 then [Problem(at, field, MustBeNonNegative)] else []
  }

  function ReasoningProblems(u: TokenUsage, at: Where): seq<Problem> {
    if u.reasoningOutputTokens.Some? then CountProblems(at, "reasoning_output_tokens", u.reasoningOutputTokens.value)
    else if u.provider == ANTHROPIC then []
    else [Problem(at, "reasoning_output_tokens", MustBeInteger)]
  }

  function CostProblems(u: TokenUsage, at: Where): seq<Problem> {
    if u.usd.None? then (if u.provider == ANTHROPIC then [] else [Problem(at, "usd", MustBeNumber)])
    else if u.usd.value < 0.0 then [Problem(at, "usd", MustBeNonNegative)]
    else []
  }

  function ElapsedProblems(u: TokenUsage, at: Where): seq<Problem> {
    if u.elapsedMs < 0.0 then [Problem(at, "elapsed_ms", MustBeNonNegative)] else []
  }

  /** The two checks that the source makes only when every integer field really is an integer. */
  function CrossProblems(u: TokenUsage, at: Where): seq<Problem> {
    if u.reasoningOutputTokens.None? then [] else
    (if u.requests == 0 && (u.inputTokens != 0 || u.outputTokens != 0 || u.contextTokens != 0 || u.taskTokens != 0)
     then [Problem(at, "requests", RequestsZero)] else []) +
    (if u.contextTokens + u.taskTokens > u.inputTokens then [Problem(at, "input_tokens", ExceedsInput)] else [])
  }

  function TokenProblems(u: TokenUsage, at: Where): seq<Problem> {
    CountProblems(at, "input_tokens", u.inputTokens) + CountProblems(at, "output_tokens", u.outputTokens) +
    CountProblems(at, "context_tokens", u.contextTokens) + CountProblems(at, "task_tokens", u.taskTokens)
  }

  function CacheProblems(u: TokenUsage, at: Where): seq<Problem> {
    CountProblems(at, "cached_tokens", u.cachedTokens) + CountProblems(at, "cached_input_tokens", u.cachedInputTokens) +
    CountProblems(at, "cache_write_input_tokens", u.cacheWriteInputTokens) + ReasoningProblems(u, at)
  }

  function UseProblems(u: TokenUsage, at: Where): seq<Problem> {
    CountProblems(at, "cache_adjusted_input_tokens", u.cacheAdjustedInputTokens) +
    CountProblems(at, "requests", u.requests) + CountProblems(at, "tool_calls", u.toolCalls) +
    CostProblems(u, at) + ElapsedProblems(u, at)
  }

  /** `validate_token_usage`, in the order in which the source reports. */
  function ValidateTokenUsage(u: TokenUsage, at: Where): seq<Problem> {
    TokenProblems(u, at) + CacheProblems(u, at) + UseProblems(u, at) + CrossProblems(u, at)
  }

  // ---------------------------------------------------------------- what validity means

  predicate NonNegative(u: TokenUsage) {
    u.inputTokens >= 0 && u.outputTokens >= 0 && u.contextTokens >= 0 && u.taskTokens >= 0 && u.requests >= 0 &&
    u.cachedTokens >= 0 && u.cachedInputTokens >= 0 && u.cacheWriteInputTokens >= 0 &&
    u.cacheAdjustedInputTokens >= 0 && u.toolCalls >= 0 && u.elapsedMs >= 0.0 &&
    (u.usd.Some? ==> u.usd.value >= 0.0) && (u.reasoningOutputTokens.Some? ==> u.reasoningOutputTokens.value >= 0)
  }

  /** Tokens imply a request, and the task/context split stays inside the input. */
  predicate Consistent(u: TokenUsage) {
    && (u.requests == 0 ==> u.inputTokens == 0 && u.outputTokens == 0 && u.contextTokens == 0 && u.taskTokens == 0)
    && u.contextTokens + u.taskTokens <= u.inputTokens
  }

  predicate Sound(u: TokenUsage) {
    NonNegative(u) && (u.reasoningOutputTokens.Some? ==> Consistent(u))
  }

  /** Both measurements that a provider may withhold are present. */
  predicate Metered(u: TokenUsage) {
    u.usd.Some? && u.reasoningOutputTokens.Some?
  }

  predicate Admissible(u: TokenUsage) {
    Sound(u) && (Metered(u) || u.provider == ANTHROPIC)
  }

  lemma EmptyConcat<T>(a: seq<T>, b: seq<T>)
    ensures a + b == [] <==> a == [] && b == []
  {
    assert |a + b| == |a| + |b|;
  }

  /** A record raises no problem exactly when it is admissible. */
  lemma NoProblemIffAdmissible(u: TokenUsage, at: Where)
    ensures ValidateTokenUsage(u, at) == [] <==> Admissible(u)
  {
    assert |ValidateTokenUsage(u, at)| ==
      |CountProblems(at, "input_tokens", u.inputTokens)| + |CountProblems(at, "output_tokens", u.outputTokens)| +
      |CountProblems(at, "context_tokens", u.contextTokens)| + |CountProblems(at, "task_tokens", u.taskTokens)| +
      |CountProblems(at, "cached_tokens", u.cachedTokens)| + |CountProblems(at, "cached_input_tokens", u.cachedInputTokens)| +
      |CountProblems(at, "cache_write_input_tokens", u.cacheWriteInputTokens)| + |ReasoningProblems(u, at)| +
      |CountProblems(at, "cache_adjusted_input_tokens", u.cacheAdjustedInputTokens)| +
      |CountProblems(at, "requests", u.requests)| + |CountProblems(at, "tool_calls", u.toolCalls)| +
      |CostProblems(u, at)| + |ElapsedProblems(u, at)| + |CrossProblems(u, at)|;
    assert |CrossProblems(u, at)| == 0 <==> (u.reasoningOutputTokens.Some? ==>
      !(u.requests == 0 && (u.inputTokens != 0 || u.outputTokens != 0 || u.contextTokens != 0 || u.taskTokens != 0))
      && u.contextTokens + u.taskTokens <= u.inputTokens);
  }

  lemma SumIsSound(a: TokenUsage, b: TokenUsage)
    requires Sound(a) && Sound(b)
    ensures Sound(a.Plus(b))
  {
    RoundNonNegative(a.elapsedMs + b.elapsedMs, MILLIS);
    if a.usd.Some? && b.usd.Some? {
      RoundNonNegative(a.usd.value + b.usd.value, MICROS);
    }
  }

  lemma {:induction false} TotalIsSound(requests: seq<TokenUsage>)
    requires forall i :: 0 <= i < |requests| ==> Sound(requests[i])
    ensures Sound(Aggregate(requests))
  {
    if requests != [] {
      TotalIsSound(Init(requests));
      SumIsSound(Aggregate(Init(requests)), Last(requests));
    }
  }

  predicate AllMetered(requests: seq<TokenUsage>) {
    forall i :: 0 <= i < |requests| ==> Metered(requests[i])
  }

  /** The first request that names a provider names the one that may withhold measurements. */
  predicate MayWithhold(requests: seq<TokenUsage>) {
    NamesFirst(requests, PROVIDER, ANTHROPIC)
  }

  lemma ProviderOfTotal(requests: seq<TokenUsage>)
    ensures Aggregate(requests).provider == ANTHROPIC <==> MayWithhold(requests)
  {
    hide Aggregate, NamesFirst;
    TagsOfTotal(requests);
    FirstTruthyIsNamedFirst(requests, PROVIDER, ANTHROPIC);
  }

  /**
    The total of admissible requests is admissible exactly when all of them are fully metered or the
    first that names a provider names the one that may withhold measurements.
   */
  lemma TotalOfAdmissible(requests: seq<TokenUsage>)
    requires forall i :: 0 <= i < |requests| ==> Admissible(requests[i])
    ensures Admissible(Aggregate(requests)) <==> AllMetered(requests) || MayWithhold(requests)
  {
    hide Aggregate, MayWithhold;
    TotalIsSound(requests);
    AbsenceIsExact(requests);
    ProviderOfTotal(requests);
  }

  /** Admissible requests that share one provider always have an admissible total. */
  lemma SharedProviderIsEnough(requests: seq<TokenUsage>, provider: Json)
    requires forall i :: 0 <= i < |requests| ==> Admissible(requests[i]) && requests[i].provider == provider
    ensures Admissible(Aggregate(requests))
  {
    hide Aggregate, Sound, Metered;
    TotalOfAdmissible(requests);
    if requests != [] && provider == ANTHROPIC {
      assert PROVIDER(requests[0]) == ANTHROPIC;
    }
  }

  /** A metered record of another provider, and one without cost of the provider that may withhold it. */
  const METERED := NOTHING.(requests := 1, provider := Str("openai"))
  const UNPRICED := NOTHING.(requests := 1, provider := ANTHROPIC, usd := None)

  lemma MixedRecordsAreAdmissible()
    ensures AcceptableRequest(METERED) && AcceptableRequest(UNPRICED)
    ensures forall u :: u in [METERED, UNPRICED] ==> AcceptableRequest(u)
  {
  }

  lemma MixedProvidersDoNotWithhold()
    ensures !MayWithhold([METERED, UNPRICED]) && !AllMetered([METERED, UNPRICED])
    ensures MayWithhold([UNPRICED, METERED])
  {
    assert Truthy(METERED.provider) && METERED.provider != ANTHROPIC by { assert |"openai"| != |"anthropic"|; }
    assert [METERED, UNPRICED][1] == UNPRICED && !Metered(UNPRICED);
    assert PROVIDER([METERED, UNPRICED][0]) == METERED.provider;
    assert PROVIDER([UNPRICED, METERED][0]) == ANTHROPIC;
  }

  /** Two valid requests with an invalid total; in the other order the total is valid. */
  lemma MixedProvidersInvalidTotal()
    ensures Admissible(METERED) && Admissible(UNPRICED)
    ensures !Admissible(Aggregate([METERED, UNPRICED])) && Admissible(Aggregate([UNPRICED, METERED]))
    ensures EnvelopeTelemetryProblems([METERED, UNPRICED], Aggregate([METERED, UNPRICED])) != []
  {
    hide Aggregate, EnvelopeTelemetryProblems, MayWithhold, AllMetered, Sound;
    MixedRecordsAreAdmissible();
    MixedProvidersDoNotWithhold();
    TotalOfAdmissible([METERED, UNPRICED]);
    TotalOfAdmissible([UNPRICED, METERED]);
    EnvelopeAccepted([METERED, UNPRICED], Aggregate([METERED, UNPRICED]));
  }

  // ---------------------------------------------------------------- the telemetry part of an envelope

  function RequestProblems(requests: seq<TokenUsage>): seq<Problem> {
    if requests == [] then [] else
    var at := Request(|requests| - 1);
    RequestProblems(Init(requests)) + ValidateTokenUsage(Last(requests), at) +
    (if Last(requests).requests != 1 then [Problem(at, "requests", MustEqualOne)] else [])
  }

  function EnvelopeTelemetryProblems(requests: seq<TokenUsage>, total: TokenUsage): seq<Problem> {
    RequestProblems(requests) + ValidateTokenUsage(total, Total) +
    (if Aggregate(requests) != total then [Problem(Total, "", TotalDiffers)] else [])
  }

  /** The telemetry part of `validate_envelope`. */
  method ValidateEnvelopeTelemetry(requests: seq<TokenUsage>, total: TokenUsage) returns (problems: seq<Problem>)
    ensures problems == EnvelopeTelemetryProblems(requests, total)
  {
    hide ValidateTokenUsage, Aggregate;
    problems := [];
    for i := 0 to |requests|
      invariant problems == RequestProblems(requests[..i])
    {
      assert Init(requests[..i + 1]) == requests[..i];
      problems := problems + ValidateTokenUsage(requests[i], Request(i));
      if requests[i].requests != 1 {
        problems := problems + [Problem(Request(i), "requests", MustEqualOne)];
      }
    }
    assert requests[..|requests|] == requests;
    problems := problems + ValidateTokenUsage(total, Total);
    var expected := AggregateTelemetry(requests);
    if expected != total {
      problems := problems + [Problem(Total, "", TotalDiffers)];
    }
  }

  predicate AcceptableRequest(u: TokenUsage) {
    Admissible(u) && u.requests == 1
  }

  lemma {:induction false} NoRequestProblems(requests: seq<TokenUsage>)
    ensures RequestProblems(requests) == [] <==> forall i :: 0 <= i < |requests| ==> AcceptableRequest(requests[i])
  {
    if requests != [] {
      var at := Request(|requests| - 1);
      NoRequestProblems(Init(requests));
      NoProblemIffAdmissible(Last(requests), at);
      var tail := if Last(requests).requests != 1 then [Problem(at, "requests", MustEqualOne)] else [];
      EmptyConcat(RequestProblems(Init(requests)) + ValidateTokenUsage(Last(requests), at), tail);
      EmptyConcat(RequestProblems(Init(requests)), ValidateTokenUsage(Last(requests), at));
      assert forall i :: 0 <= i < |requests| - 1 ==> Init(requests)[i] == requests[i];
    }
  }

  /** An envelope is accepted exactly when its total is the sum of its requests and these are acceptable together. */
  lemma EnvelopeAccepted(requests: seq<TokenUsage>, total: TokenUsage)
    ensures EnvelopeTelemetryProblems(requests, total) == [] <==>
      && total == Aggregate(requests)
      && (forall i :: 0 <= i < |requests| ==> AcceptableRequest(requests[i]))
      && (AllMetered(requests) || MayWithhold(requests))
  {
    hide Aggregate, ValidateTokenUsage, RequestProblems, Sound, MayWithhold, AllMetered;
    var differs := if Aggregate(requests) != total then [Problem(Total, "", TotalDiffers)] else [];
    EmptyConcat(RequestProblems(requests) + ValidateTokenUsage(total, Total), differs);
    EmptyConcat(RequestProblems(requests), ValidateTokenUsage(total, Total));
    NoRequestProblems(requests);
    NoProblemIffAdmissible(total, Total);
    if forall i :: 0 <= i < |requests| ==> AcceptableRequest(requests[i]) {
      TotalOfAdmissible(requests);
    }
  }

  ghost predicate AllAt(problems: seq<Problem>, at: Where) {
    forall p :: p in problems ==> p.at == at
  }

  lemma TokenProblemsAreAt(u: TokenUsage, at: Where)
    ensures AllAt(TokenProblems(u, at), at)
  {
  }

  lemma CacheProblemsAreAt(u: TokenUsage, at: Where)
    ensures AllAt(CacheProblems(u, at), at)
  {
  }

  lemma UseProblemsAreAt(u: TokenUsage, at: Where)
    ensures AllAt(UseProblems(u, at), at)
  {
  }

  lemma ProblemsAreAt(u: TokenUsage, at: Where)
    ensures AllAt(ValidateTokenUsage(u, at), at)
  {
    assert AllAt(CrossProblems(u, at), at);
    hide TokenProblems, CacheProblems, UseProblems, CrossProblems;
    TokenProblemsAreAt(u, at);
    CacheProblemsAreAt(u, at);
    UseProblemsAreAt(u, at);
  }

  /** Each fault of a record is reported under the name of its own field. */
  lemma TokenFaultsAreNamed(u: TokenUsage, at: Where)
    ensures u.inputTokens < 0 ==> Problem(at, "input_tokens", MustBeNonNegative) in TokenProblems(u, at)
    ensures u.outputTokens < 0 ==> Problem(at, "output_tokens", MustBeNonNegative) in TokenProblems(u, at)
    ensures u.contextTokens < 0 ==> Problem(at, "context_tokens", MustBeNonNegative) in TokenProblems(u, at)
    ensures u.taskTokens < 0 ==> Problem(at, "task_tokens", MustBeNonNegative) in TokenProblems(u, at)
  {
  }

  lemma CacheFaultsAreNamed(u: TokenUsage, at: Where)
    ensures u.cachedTokens < 0 ==> Problem(at, "cached_tokens", MustBeNonNegative) in CacheProblems(u, at)
    ensures u.cachedInputTokens < 0 ==> Problem(at, "cached_input_tokens", MustBeNonNegative) in CacheProblems(u, at)
    ensures u.cacheWriteInputTokens < 0 ==> Problem(at, "cache_write_input_tokens", MustBeNonNegative) in CacheProblems(u, at)
    ensures u.reasoningOutputTokens.None? && u.provider != ANTHROPIC ==> Problem(at, "reasoning_output_tokens", MustBeInteger) in CacheProblems(u, at)
    ensures u.reasoningOutputTokens.Some? && u.reasoningOutputTokens.value < 0 ==>
      Problem(at, "reasoning_output_tokens", MustBeNonNegative) in CacheProblems(u, at)
  {
  }

  lemma UseFaultsAreNamed(u: TokenUsage, at: Where)
    ensures u.cacheAdjustedInputTokens < 0 ==> Problem(at, "cache_adjusted_input_tokens", MustBeNonNegative) in UseProblems(u, at)
    ensures u.requests < 0 ==> Problem(at, "requests", MustBeNonNegative) in UseProblems(u, at)
    ensures u.toolCalls < 0 ==> Problem(at, "tool_calls", MustBeNonNegative) in UseProblems(u, at)
    ensures u.usd.None? && u.provider != ANTHROPIC ==> Problem(at, "usd", MustBeNumber) in UseProblems(u, at)
    ensures u.usd.Some? && u.usd.value < 0.0 ==> Problem(at, "usd", MustBeNonNegative) in UseProblems(u, at)
    ensures u.elapsedMs < 0.0 ==> Problem(at, "elapsed_ms", MustBeNonNegative) in UseProblems(u, at)
  {
  }

  /** Each kind of fault that a record can have, with the problem it must be reported as. */
  ghost predicate Faulty(u: TokenUsage, field: string, complaint: Complaint) {
    || (complaint == MustBeNonNegative && (
          || (field == "input_tokens" && u.inputTokens < 0) || (field == "output_tokens" && u.outputTokens < 0)
          || (field == "context_tokens" && u.contextTokens < 0) || (field == "task_tokens" && u.taskTokens < 0)
          || (field == "cached_tokens" && u.cachedTokens < 0) || (field == "cached_input_tokens" && u.cachedInputTokens < 0)
          || (field == "cache_write_input_tokens" && u.cacheWriteInputTokens < 0)
          || (field == "reasoning_output_tokens" && u.reasoningOutputTokens.Some? && u.reasoningOutputTokens.value < 0)
          || (field == "cache_adjusted_input_tokens" && u.cacheAdjustedInputTokens < 0)
          || (field == "requests" && u.requests < 0) || (field == "tool_calls" && u.toolCalls < 0)
          || (field == "usd" && u.usd.Some? && u.usd.value < 0.0) || (field == "elapsed_ms" && u.elapsedMs < 0.0)))
    || (complaint == MustBeInteger && field == "reasoning_output_tokens" && u.reasoningOutputTokens.None? && u.provider != ANTHROPIC)
    || (complaint == MustBeNumber && field == "usd" && u.usd.None? && u.provider != ANTHROPIC)
    || (complaint == RequestsZero && field == "requests" && u.reasoningOutputTokens.Some? && u.requests == 0 &&
        (u.inputTokens != 0 || u.outputTokens != 0 || u.contextTokens != 0 || u.taskTokens != 0))
    || (complaint == ExceedsInput && field == "input_tokens" && u.reasoningOutputTokens.Some? && u.contextTokens + u.taskTokens > u.inputTokens)
  }

  lemma CrossFaultsAreNamed(u: TokenUsage, at: Where)
    ensures Faulty(u, "requests", RequestsZero) ==> Problem(at, "requests", RequestsZero) in CrossProblems(u, at)
    ensures Faulty(u, "input_tokens", ExceedsInput) ==> Problem(at, "input_tokens", ExceedsInput) in CrossProblems(u, at)
  {
  }

  /** Every fault of a record is reported, under the name of its field. */
  lemma FaultsAreReported(u: TokenUsage, at: Where, field: string, complaint: Complaint)
    requires Faulty(u, field, complaint)
    ensures Problem(at, field, complaint) in ValidateTokenUsage(u, at)
  {
    hide TokenProblems, CacheProblems, UseProblems, CrossProblems;
    TokenFaultsAreNamed(u, at);
    CacheFaultsAreNamed(u, at);
    UseFaultsAreNamed(u, at);
    CrossFaultsAreNamed(u, at);
  }

  /** Every problem of an envelope lies with a request that is not acceptable, or with the total. */
  lemma {:induction false} RequestProblemsAreFaults(requests: seq<TokenUsage>)
    ensures forall p :: p in RequestProblems(requests) ==>
      p.at.Request? && p.at.index < |requests| && !AcceptableRequest(requests[p.at.index])
  {
    hide ValidateTokenUsage, Admissible;
    if requests != [] {
      var at := Request(|requests| - 1);
      RequestProblemsAreFaults(Init(requests));
      ProblemsAreAt(Last(requests), at);
      NoProblemIffAdmissible(Last(requests), at);
    }
  }

  lemma EnvelopeProblemsAreFaults(requests: seq<TokenUsage>, total: TokenUsage)
    ensures forall p :: p in EnvelopeTelemetryProblems(requests, total) ==>
      if p.at.Request? then p.at.index < |requests| && !AcceptableRequest(requests[p.at.index])
      else !Admissible(total) || total != Aggregate(requests)
  {
    hide ValidateTokenUsage, RequestProblems, Admissible, Aggregate, AcceptableRequest;
    RequestProblemsAreFaults(requests);
    ProblemsAreAt(total, Total);
    NoProblemIffAdmissible(total, Total);
  }
}

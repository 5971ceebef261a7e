/** What every run of the message loop keeps, for every inbox. */
module AppServerSafety {
  import opened Prelude
  import opened JsonValues
  import opened CodexUsage
  import opened AgentMessages
  import opened AppServer

  // ---------------------------------------------------------------- refusals

  /**
    Section 5 of the JSON-RPC 2.0 specification: an error response to the request with this id, with a
    code from the range for errors defined by an implementation.
   */
  predicate IsErrorResponse(m: Object, id: Json) {
    && Get(m, "jsonrpc") == Str("2.0") && "id" in m && m["id"] == id
    && "result" !in m && "method" !in m
    && GetIn(m, "error", "message").Str? && GetIn(m, "error", "code").Int?
    && -32099 <= GetIn(m, "error", "code").n <= -32000
  }

  lemma RefusalIsErrorResponse(id: Json)
    ensures IsErrorResponse(Refusal(id), id)
  {
  }

  /** The server-initiated requests among the events, in order. */
  function ServerRequests(events: seq<Timed>): seq<Object> {
    if events == [] then []
    else if IsServerRequest(Last(events).message) then ServerRequests(Init(events)) + [Last(events).message]
    else ServerRequests(Init(events))
  }

  /** The outgoing messages that are no requests or notifications of our own. */
  function Replies(sent: seq<Object>): seq<Object> {
    if sent == [] then []
    else if "method" in Last(sent) then Replies(Init(sent))
    else Replies(Init(sent)) + [Last(sent)]
  }

  /** Reply i is an error response to request i, and there are no other replies. */
  ghost predicate AnsweredOnceInOrder(requests: seq<Object>, replies: seq<Object>) {
    && |replies| == |requests|
    && forall i :: 0 <= i < |requests| ==> IsErrorResponse(replies[i], Get(requests[i], "id"))
  }

  // ---------------------------------------------------------------- the ledger over events

  /** The ledger and the usage marks after a list of events. */
  function Tracked(events: seq<Timed>): Result<(LedgerState, seq<UsageMark>), LedgerError> {
    if events == [] then Ok((EMPTY_LEDGER, [])) else
    var front := Tracked(Init(events));
    if front.Err? then front else
    var (ledger, usage) := front.value;
    match Observe(ledger, Last(events).message)
    case Err(e) => Err(e)
    case Ok(next) => Ok((next,
      if |next.accepted| > |ledger.accepted| then usage + [UsageMark(Last(next.accepted), Last(events).at, |events| - 1)]
      else usage))
  }

  /** The usage notifications among the events; a malformed one has no value here. */
  function Notifications(events: seq<Timed>): seq<Notification> {
    if events == [] then [] else
    match ReadNotification(Last(events).message)
    case Ok(Some(n)) => Notifications(Init(events)) + [n]
    case _ => Notifications(Init(events))
  }

  predicate AllParse(events: seq<Timed>) {
    forall i :: 0 <= i < |events| ==> ReadNotification(events[i].message).Ok?
  }

  /** Consuming the events succeeds exactly when every usage notification parses and they reconcile. */
  lemma {:induction false} TrackedIsReplay(events: seq<Timed>)
    ensures Tracked(events).Ok? ==> AllParse(events)
    ensures AllParse(events) ==> (Tracked(events).Ok? <==> Replay(Notifications(events)).Ok?)
    ensures Tracked(events).Ok? ==> Replay(Notifications(events)) == Ok(Tracked(events).value.0)
  {
    hide ReadNotification, Step;
    if events != [] {
      var front, last := Init(events), Last(events);
      TrackedIsReplay(front);
      assert AllParse(events) <==> AllParse(front) && ReadNotification(last.message).Ok? by {
        assert forall i :: 0 <= i < |front| ==> front[i] == events[i];
      }
      if AllParse(events) && ReadNotification(last.message).value.Some? {
        assert Init(Notifications(events)) == Notifications(front);
      }
    }
  }

  /** Marks are the accepted entries, at strictly increasing positions of usage notifications. */
  ghost predicate MarksExact(events: seq<Timed>, ledger: LedgerState, usage: seq<UsageMark>) {
    && |usage| == |ledger.accepted|
    && (forall j :: 0 <= j < |usage| ==> MarkExact(events, ledger, usage[j], j))
    && (forall j, k :: 0 <= j < k < |usage| ==> usage[j].index < usage[k].index)
  }

  predicate MarkExact(events: seq<Timed>, ledger: LedgerState, mark: UsageMark, j: nat) {
    && j < |ledger.accepted| && mark.entry == ledger.accepted[j]
    && mark.index < |events| && events[mark.index].at == mark.at
    && Get(events[mark.index].message, "method") == Str(USAGE_METHOD)
  }

  lemma ObserveGrows(ledger: LedgerState, message: Object)
    requires Observe(ledger, message).Ok?
    ensures var next := Observe(ledger, message).value;
      || next == ledger
      || (Get(message, "method") == Str(USAGE_METHOD) && next.accepted != [] && Init(next.accepted) == ledger.accepted)
  {
  }

  lemma ObserveKeepsNumbering(ledger: LedgerState, message: Object)
    requires WellNumbered(ledger)
    ensures Observe(ledger, message).Ok? ==> WellNumbered(Observe(ledger, message).value)
  {
    hide WellNumbered, Step;
    var parsed := ReadNotification(message);
    if parsed.Ok? && parsed.value.Some? {
      StepKeepsNumbering(ledger, parsed.value.value);
    }
  }

  lemma {:induction false} TrackedMarks(events: seq<Timed>)
    requires Tracked(events).Ok?
    ensures MarksExact(events, Tracked(events).value.0, Tracked(events).value.1)
    ensures WellNumbered(Tracked(events).value.0)
  {
    hide Observe, WellNumbered;
    if events == [] {
      assert WellNumbered(EMPTY_LEDGER) by { EmptyIsWellNumbered(); }
    } else {
      var front := Init(events);
      TrackedMarks(front);
      var (ledger, usage) := Tracked(front).value;
      ObserveGrows(ledger, Last(events).message);
      ObserveKeepsNumbering(ledger, Last(events).message);
      var (next, marks) := Tracked(events).value;
      forall j | 0 <= j < |marks|
        ensures MarkExact(events, next, marks[j], j)
      {
        if j < |usage| {
          assert MarkExact(front, ledger, usage[j], j);
          assert events[usage[j].index] == front[usage[j].index];
        }
      }
    }
  }

  lemma EmptyIsWellNumbered()
    ensures WellNumbered(EMPTY_LEDGER)
  {
  }

  // ---------------------------------------------------------------- the invariant of a run

  ghost predicate Inv(s: Session, inbox: seq<Timed>) {
    && s.events + s.unread == inbox
    && s.serverRequests == ServerRequests(s.events)
    && AnsweredOnceInOrder(s.serverRequests, Replies(s.sent))
    && Tracked(s.events) == Ok((s.ledger, s.usage))
  }

  /** The state in which a malformed usage notification stops a run: everything before it is settled. */
  ghost predicate StoppedByUsage(s: Session, inbox: seq<Timed>) {
    && s.events != [] && s.events + s.unread == inbox
    && Inv(s.(events := Init(s.events), unread := [Last(s.events)] + s.unread), inbox)
    && Tracked(s.events).Err?
  }

  ghost predicate Settled(s: Session, stoppedByUsage: bool, inbox: seq<Timed>) {
    if stoppedByUsage then StoppedByUsage(s, inbox) else Inv(s, inbox)
  }

  predicate IsBadUsage<T>(r: Result<T, ProtocolError>) {
    r.Err? && r.error.BadUsage?
  }

  lemma AccountSettles(s: Session, inbox: seq<Timed>)
    requires Inv(s, inbox) && s.unread != []
    ensures var (r, next) := Account(s); var message := s.unread[0].message;
      && next.sent == s.sent && next.serverRequests == s.serverRequests && next.events + next.unread == inbox
      && next.events == s.events + [s.unread[0]]
      && (r.Ok? ==> r.value == message && Tracked(next.events) == Ok((next.ledger, next.usage)))
      && (r.Err? ==> r.error.BadUsage? && Tracked(next.events).Err? && next.ledger == s.ledger && next.usage == s.usage)
  {
    hide Observe, AnsweredOnceInOrder, ServerRequests, Replies;
    var head := s.unread[0];
    var events := s.events + [head];
    assert Init(events) == s.events && Last(events) == head;
    assert s.unread == [head] + s.unread[1..];
    assert events + s.unread[1..] == inbox;
  }

  lemma RefuseAnswers(s: Session, message: Object, requests: seq<Object>)
    requires AnsweredOnceInOrder(s.serverRequests, Replies(s.sent))
    ensures var next := Refuse(s, message);
      && AnsweredOnceInOrder(next.serverRequests, Replies(next.sent))
      && next.serverRequests == s.serverRequests + (if IsServerRequest(message) then [message] else [])
  {
    if IsServerRequest(message) {
      var reply := Refusal(message["id"]);
      RefusalIsErrorResponse(message["id"]);
      assert Init(s.sent + [reply]) == s.sent;
      assert Replies(s.sent + [reply]) == Replies(s.sent) + [reply];
    }
  }

  lemma AbsorbSettles(s: Session, inbox: seq<Timed>)
    requires Inv(s, inbox)
    ensures var (r, next) := Absorb(s);
      && Settled(next, IsBadUsage(r), inbox)
      && (r.Ok? ==> s.unread != [] && r.value == s.unread[0].message && next.events == s.events + [s.unread[0]])
  {
    hide Account, Refuse, Tracked, AnsweredOnceInOrder;
    if s.unread == [] {
      EmptyInboxEnds(s);
    } else {
      AccountSettles(s, inbox);
      var (r, next) := Account(s);
      assert Init(next.events) == s.events && Last(next.events) == s.unread[0];
      if r.Ok? {
        RefuseAnswers(next, r.value, s.serverRequests);
        RefuseKeeps(next, r.value);
      } else {
        assert [Last(next.events)] + next.unread == s.unread by {
          assert s.events + s.unread == s.events + ([s.unread[0]] + next.unread);
          SuffixesAgree(s.events, s.unread, [s.unread[0]] + next.unread);
        }
        assert next.(events := Init(next.events), unread := [Last(next.events)] + next.unread) == s;
      }
    }
  }

  lemma SuffixesAgree<T>(a: seq<T>, b: seq<T>, c: seq<T>)
    requires a + b == a + c
    ensures b == c
  {
    assert b == (a + b)[|a|..];
    assert c == (a + c)[|a|..];
  }

  lemma EmptyInboxEnds(s: Session)
    requires s.unread == []
    ensures Absorb(s).0 == Err(StreamEnded) && Absorb(s).1 == s
  {
  }

  lemma RefuseKeeps(s: Session, message: Object)
    ensures var next := Refuse(s, message);
      next.unread == s.unread && next.events == s.events && next.usage == s.usage && next.ledger == s.ledger
  {
  }

  lemma {:induction false} AwaitSettles(s: Session, id: int, inbox: seq<Timed>)
    requires Inv(s, inbox)
    ensures var (r, next) := Await(s, id); Settled(next, IsBadUsage(r), inbox)
    decreases |s.unread|
  {
    hide Absorb, Inv, StoppedByUsage;
    AbsorbSettles(s, inbox);
    AbsorbConsumes(s);
    var (r, next) := Absorb(s);
    if r.Ok? && !EqualsInt(Get(r.value, "id"), id) {
      AwaitSettles(next, id, inbox);
    }
  }

  lemma AbsorbConsumes(s: Session)
    ensures Absorb(s).0.Ok? ==> |Absorb(s).1.unread| < |s.unread|
  {
  }

  lemma SendKeepsInv(s: Session, message: Object, inbox: seq<Timed>)
    requires Inv(s, inbox) && "method" in message
    ensures Inv(Send(s, message), inbox)
  {
    hide Tracked, ServerRequests, AnsweredOnceInOrder;
    assert Init(s.sent + [message]) == s.sent;
  }

  // ---------------------------------------------------------------- the turn

  /** What the events say to the board. */
  function Effects(events: seq<Timed>): seq<Effect> {
    if events == [] then [] else Effects(Init(events)) + [EffectOf(Last(events).message)]
  }

  /** The last text inside the turn object of `turn/completed`, if there is any. */
  function TurnText(message: Object): string {
    var turn := TurnOf(message);
    if turn.Obj? && ExtractText(turn) != [] then Last(ExtractText(turn)) else ""
  }

  /** The result of a turn in terms of the events the turn consumed. */
  ghost predicate TurnExplained(t: Turn, events: seq<Timed>) {
    && events != [] && IsTurnCompleted(Last(events).message)
    && t.board == HearAll(Effects(events))
    && t.finalOutput == (
         if t.board == [] then TurnText(Last(events).message)
         else if TurnOf(Last(events).message).Obj? then Last(t.board).text
         else "")
  }

  /** The turn state before `turn/completed`, in terms of the events heard so far. */
  ghost predicate TurnSoFar(t: Turn, events: seq<Timed>) {
    t.board == HearAll(Effects(events)) && t.finalOutput == ""
  }

  lemma HearsNext(t: Turn, events: seq<Timed>, next: Timed)
    requires TurnSoFar(t, events)
    ensures TurnSoFar(t.(board := Hear(t.board, EffectOf(next.message))), events + [next])
  {
    hide EffectOf, Hear;
    assert Init(events + [next]) == events;
    var effects := Effects(events);
    assert Effects(events + [next]) == effects + [EffectOf(next.message)];
    assert Init(effects + [EffectOf(next.message)]) == effects;
  }

  lemma CompletionExplained(t: Turn, events: seq<Timed>)
    requires events != [] && IsTurnCompleted(Last(events).message) && TurnSoFar(t, events)
    ensures TurnExplained(CompleteTurn(t, Last(events).message), events)
  {
    hide HearAll, Effects, ExtractText, TurnOf;
  }

  /** A turn from any settled state: `heard` are the events it has consumed so far. */
  lemma {:induction false} ConverseSettles(s: Session, t: Turn, heard: seq<Timed>, inbox: seq<Timed>)
    requires Inv(s, inbox) && TurnSoFar(t, heard) && |heard| <= |s.events| && s.events[|s.events| - |heard|..] == heard
    ensures var (r, end) := Converse(s, t); var start := |s.events| - |heard|;
      && Settled(end, IsBadUsage(r), inbox)
      && (r.Ok? ==> start <= |end.events| && end.events[..start] == s.events[..start] && TurnExplained(r.value, end.events[start..]))
    decreases |s.unread|
  {
    hide Absorb, Inv, StoppedByUsage, TurnSoFar, TurnExplained, TurnIdFromResult, CompleteTurn, IsTurnCompleted, EffectOf, Hear;
    AbsorbSettles(s, inbox);
    AbsorbConsumes(s);
    var (r, next) := Absorb(s);
    if r.Ok? {
      var head := s.unread[0];
      var start := |s.events| - |heard|;
      var now := heard + [head];
      HearsNext(t, heard, head);
      assert next.events[start..] == now && next.events[..start] == s.events[..start];
      var heardTurn := t.(board := Hear(t.board, EffectOf(r.value)));
      var turnId := TurnIdFromResult(r.value, heardTurn.turnId);
      if turnId.Some? {
        var named := heardTurn.(turnId := turnId.value);
        assert TurnSoFar(named, now) by { TurnIdIsIrrelevant(heardTurn, turnId.value, now); }
        if IsTurnCompleted(r.value) {
          CompletionExplained(named, now);
        } else {
          ConverseSettles(next, named, now, inbox);
        }
      }
    }
  }

  lemma TurnIdIsIrrelevant(t: Turn, turnId: Json, events: seq<Timed>)
    requires TurnSoFar(t, events)
    ensures TurnSoFar(t.(turnId := turnId), events)
  {
  }

  lemma StartSettled(inbox: seq<Timed>)
    ensures Inv(Start(inbox), inbox)
  {
  }

  lemma ThreadIdIsNoUsageError(response: Object)
    ensures !IsBadUsage(ThreadId(response))
  {
  }

  lemma HandshakeSettles(config: Config, prompt: string, inbox: seq<Timed>)
    ensures var (r, s) := Handshake(config, prompt, inbox); Settled(s, IsBadUsage(r), inbox)
  {
    hide Await, Inv, StoppedByUsage, ThreadId, Call;
    StartSettled(inbox);
    assert "method" in INITIALIZE by { OwnMessagesAreNoReplies(config, "", prompt); }
    SendKeepsInv(Start(inbox), INITIALIZE, inbox);
    AwaitSettles(Send(Start(inbox), INITIALIZE), 1, inbox);
    var (initialized, s1) := Await(Send(Start(inbox), INITIALIZE), 1);
    if initialized.Ok? {
      OwnMessagesAreNoReplies(config, "", prompt);
      SendKeepsInv(s1, INITIALIZED, inbox);
      SendKeepsInv(Send(s1, INITIALIZED), ThreadStart(config), inbox);
      AwaitSettles(Send(Send(s1, INITIALIZED), ThreadStart(config)), 2, inbox);
      var (response, s2) := Await(Send(Send(s1, INITIALIZED), ThreadStart(config)), 2);
      if response.Ok? {
        ThreadIdIsNoUsageError(response.value);
        var threadId := ThreadId(response.value);
        if threadId.Ok? {
          OwnMessagesAreNoReplies(config, threadId.value, prompt);
          SendKeepsInv(s2, TurnStart(config, threadId.value, prompt), inbox);
        }
      }
    }
  }

  lemma OwnMessagesAreNoReplies(config: Config, threadId: string, prompt: string)
    ensures "method" in INITIALIZE && "method" in INITIALIZED && "method" in ThreadStart(config)
    ensures "method" in TurnStart(config, threadId, prompt)
  {
  }

  // ---------------------------------------------------------------- which messages end the loops

  predicate IsErrorFor(message: Object, id: int, payload: Json) {
    EqualsInt(Get(message, "id"), id) && "error" in message && message["error"] == payload
  }

  /**
    Waiting for a response ends at the first message with that id: it is the last event, no event
    read before it carries the id, and an error response is reported as such.
   */
  lemma {:induction false} AwaitEndsAtFirstMatch(s: Session, id: int)
    ensures var (r, next) := Await(s, id);
      && |s.events| <= |next.events| && next.events[..|s.events|] == s.events
      && (r.Ok? ==> next.events != s.events && r.value == Last(next.events).message && EqualsInt(Get(r.value, "id"), id) && "error" !in r.value)
      && (r.Err? && r.error.ErrorResponse? ==> next.events != s.events && IsErrorFor(Last(next.events).message, id, r.error.payload))
      && (forall i :: |s.events| <= i < |next.events| - 1 ==> !EqualsInt(Get(next.events[i].message, "id"), id))
    decreases |s.unread|
  {
    hide Absorb;
    AbsorbReadsOne(s);
    AbsorbConsumes(s);
    var (r, next) := Absorb(s);
    if r.Ok? && !EqualsInt(Get(r.value, "id"), id) {
      AwaitEndsAtFirstMatch(next, id);
    }
  }

  lemma AbsorbReadsOne(s: Session)
    ensures var (r, next) := Absorb(s);
      && (r.Ok? ==> s.unread != [] && next.events == s.events + [s.unread[0]] && r.value == s.unread[0].message)
      && (r.Err? ==> !r.error.ErrorResponse? && (next.events == s.events || (s.unread != [] && next.events == s.events + [s.unread[0]])))
  {
    hide Observe;
  }

  /** The turn ends at the first `turn/completed`. */
  lemma {:induction false} ConverseEndsAtFirstCompletion(s: Session, t: Turn)
    requires Converse(s, t).0.Ok?
    ensures var end := Converse(s, t).1;
      && |s.events| < |end.events| && end.events[..|s.events|] == s.events && IsTurnCompleted(Last(end.events).message)
      && (forall i :: |s.events| <= i < |end.events| - 1 ==> !IsTurnCompleted(end.events[i].message))
    decreases |s.unread|
  {
    hide Absorb, TurnIdFromResult, CompleteTurn, EffectOf, Hear;
    AbsorbReadsOne(s);
    AbsorbConsumes(s);
    var (r, next) := Absorb(s);
    var heard := t.(board := Hear(t.board, EffectOf(r.value)));
    if !IsTurnCompleted(r.value) {
      ConverseEndsAtFirstCompletion(next, heard.(turnId := TurnIdFromResult(r.value, heard.turnId).value));
    }
  }

  /** The client's own requests and notifications among the outgoing messages. */
  function OwnCalls(sent: seq<Object>): seq<Object> {
    if sent == [] then []
    else if "method" in Last(sent) then OwnCalls(Init(sent)) + [Last(sent)]
    else OwnCalls(Init(sent))
  }

  lemma AbsorbKeepsOwnCalls(s: Session)
    ensures OwnCalls(Absorb(s).1.sent) == OwnCalls(s.sent)
  {
    hide Observe;
    var (r, read) := Account(s);
    assert read.sent == s.sent;
    if r.Ok? && IsServerRequest(r.value) {
      var reply := Refusal(r.value["id"]);
      RefusalIsErrorResponse(r.value["id"]);
      assert Init(s.sent + [reply]) == s.sent;
    }
  }

  lemma {:induction false} AwaitKeepsOwnCalls(s: Session, id: int)
    ensures OwnCalls(Await(s, id).1.sent) == OwnCalls(s.sent)
    decreases |s.unread|
  {
    hide Absorb, OwnCalls;
    AbsorbKeepsOwnCalls(s);
    AbsorbConsumes(s);
    var (r, next) := Absorb(s);
    if r.Ok? && !EqualsInt(Get(r.value, "id"), id) {
      AwaitKeepsOwnCalls(next, id);
    }
  }

  lemma {:induction false} ConverseKeepsOwnCalls(s: Session, t: Turn)
    ensures OwnCalls(Converse(s, t).1.sent) == OwnCalls(s.sent)
    decreases |s.unread|
  {
    hide Absorb, OwnCalls, TurnIdFromResult, CompleteTurn, EffectOf, Hear;
    AbsorbKeepsOwnCalls(s);
    AbsorbConsumes(s);
    var (r, next) := Absorb(s);
    if r.Ok? {
      var heard := t.(board := Hear(t.board, EffectOf(r.value)));
      var turnId := TurnIdFromResult(r.value, heard.turnId);
      if turnId.Some? && !IsTurnCompleted(r.value) {
        ConverseKeepsOwnCalls(next, heard.(turnId := turnId.value));
      }
    }
  }

  lemma SendAddsOwnCall(s: Session, message: Object)
    requires "method" in message
    ensures OwnCalls(Send(s, message).sent) == OwnCalls(s.sent) + [message]
  {
    assert Init(s.sent + [message]) == s.sent;
  }

  /** A completed run has sent exactly the four calls of the protocol, in order, with the thread it was given. */
  lemma CompletedRunCalls(config: Config, prompt: string, inbox: seq<Timed>)
    requires RunOf(config, prompt, inbox).0.Ok?
    ensures var (r, end) := RunOf(config, prompt, inbox);
      OwnCalls(end.sent) == [INITIALIZE, INITIALIZED, ThreadStart(config), TurnStart(config, r.value.threadId, prompt)]
  {
    hide Await, Converse, ThreadId, Call, OwnCalls;
    var s0 := Send(Start(inbox), INITIALIZE);
    var (_, s1) := Await(s0, 1);
    var s2 := Send(Send(s1, INITIALIZED), ThreadStart(config));
    var (response, s3) := Await(s2, 2);
    var threadId := ThreadId(response.value).value;
    var s4 := Send(s3, TurnStart(config, threadId, prompt));
    OwnMessagesAreNoReplies(config, threadId, prompt);
    NoOwnCalls();
    SendAddsOwnCall(Start(inbox), INITIALIZE);
    AwaitKeepsOwnCalls(s0, 1);
    SendAddsOwnCall(s1, INITIALIZED);
    SendAddsOwnCall(Send(s1, INITIALIZED), ThreadStart(config));
    AwaitKeepsOwnCalls(s2, 2);
    SendAddsOwnCall(s3, TurnStart(config, threadId, prompt));
    ConverseKeepsOwnCalls(s4, NEW_TURN);
    assert RunOf(config, prompt, inbox).0.value.threadId == threadId;
  }

  lemma NoOwnCalls()
    ensures OwnCalls([]) == []
  {
  }

  // ---------------------------------------------------------------- the theorems

  /** The events that a run has fully handled: all of them, but for a usage notification it died on. */
  function Handled(r: Result<AppServerRun, ProtocolError>, end: Session): seq<Timed> {
    if IsBadUsage(r) && end.events != [] then Init(end.events) else end.events
  }

  /**
    Every server-initiated request that a run handled is answered exactly once, in order, by a
    JSON-RPC error response and never by a result, and nothing else is answered. The events are a
    prefix of the inbox.
   */
  lemma EveryRequestRefusedOnce(config: Config, prompt: string, inbox: seq<Timed>)
    ensures var (r, end) := RunOf(config, prompt, inbox);
      && end.events + end.unread == inbox
      && end.serverRequests == ServerRequests(Handled(r, end))
      && AnsweredOnceInOrder(ServerRequests(Handled(r, end)), Replies(end.sent))
      && (r.Ok? ==> r.value.serverRequests == ServerRequests(r.value.events))
  {
    hide ServerRequests, AnsweredOnceInOrder, Tracked, Replies;
    RunSettles(config, prompt, inbox);
  }

  lemma RunSettles(config: Config, prompt: string, inbox: seq<Timed>)
    ensures var (r, end) := RunOf(config, prompt, inbox);
      && Settled(end, IsBadUsage(r), inbox)
      && (r.Ok? ==> r.value.events == end.events && r.value.usage == end.usage && r.value.serverRequests == end.serverRequests)
  {
    hide Handshake, Converse, Inv, StoppedByUsage, TurnExplained;
    HandshakeSettles(config, prompt, inbox);
    var (threadId, s) := Handshake(config, prompt, inbox);
    if threadId.Ok? {
      assert TurnSoFar(NEW_TURN, []);
      ConverseSettles(s, NEW_TURN, [], inbox);
    }
  }

  /**
    A run dies on a usage notification exactly when the notifications it read do not parse or do not
    reconcile; otherwise its ledger is the replay of those notifications and its usage marks are the
    accepted entries, numbered, at strictly increasing positions of usage notifications.
   */
  lemma UsageAccountingIsExact(config: Config, prompt: string, inbox: seq<Timed>)
    ensures var (r, end) := RunOf(config, prompt, inbox);
      && (IsBadUsage(r) <==> !(AllParse(end.events) && Reconciles(Notifications(end.events))))
      && (!IsBadUsage(r) ==>
            && Replay(Notifications(end.events)) == Ok(end.ledger)
            && WellNumbered(end.ledger)
            && MarksExact(end.events, end.ledger, end.usage))
  {
    hide Reconciles, WellNumbered, MarksExact, Replay, Notifications, RunOf;
    RunSettles(config, prompt, inbox);
    var (r, end) := RunOf(config, prompt, inbox);
    TrackedIsReplay(end.events);
    LedgerExactness(Notifications(end.events));
    if !IsBadUsage(r) {
      TrackedMarks(end.events);
    }
  }

  /** The events of the turn itself: those read after `turn/start` was sent. */
  function TurnEvents(config: Config, prompt: string, inbox: seq<Timed>, run: AppServerRun): seq<Timed> {
    var start := |Handshake(config, prompt, inbox).1.events|;
    if start <= |run.events| then run.events[start..] else []
  }

  /**
    The final output of a completed run that heard any agent message is the text of the message whose
    first delta or completion came latest, computed from that message's own effects only; it is empty
    when `turn/completed` carries a turn that is no object. With faithful completions that text is all
    of the message's deltas. A run that heard none ends with the last text of the turn object, if any.
   */
  lemma FinalOutputIsLastSpeaker(config: Config, prompt: string, inbox: seq<Timed>)
    requires RunOf(config, prompt, inbox).0.Ok?
    ensures
      var run := RunOf(config, prompt, inbox).0.value;
      var events := TurnEvents(config, prompt, inbox, run);
      var effects := Effects(events);
      var ids := FirstSeen(effects);
      && events != [] && IsTurnCompleted(Last(events).message)
      && (ids == [] ==> run.finalOutput == TurnText(Last(events).message))
      && (ids != [] ==>
            var speaker := Last(ids);
            && (forall id :: id in ids && id != speaker ==> FirstIndex(effects, id) < FirstIndex(effects, speaker))
            && run.finalOutput == (if TurnOf(Last(events).message).Obj? then TextOf(EffectsOn(effects, speaker), speaker) else "")
            && (Faithful(effects) ==> TextOf(EffectsOn(effects, speaker), speaker) == AllDeltas(effects, speaker)))
  {
    hide Handshake, Converse, Inv, StoppedByUsage, FirstIndex, TextOf, EffectsOn, Faithful, AllDeltas, Effects, FirstSeen, TurnOf, TurnText;
    HandshakeSettles(config, prompt, inbox);
    var (_, s) := Handshake(config, prompt, inbox);
    assert TurnSoFar(NEW_TURN, []) by { NothingHeard(); }
    ConverseSettles(s, NEW_TURN, [], inbox);
    var run := RunOf(config, prompt, inbox).0.value;
    var (turn, end) := Converse(s, NEW_TURN);
    assert turn.Ok?;
    assert run.events == end.events && run.finalOutput == turn.value.finalOutput;
    assert |s.events| <= |end.events|;
    assert TurnEvents(config, prompt, inbox, run) == end.events[|s.events|..];
    assert TurnExplained(turn.value, end.events[|s.events|..]);
    var effects := Effects(TurnEvents(config, prompt, inbox, run));
    var ids := FirstSeen(effects);
    BoardIsListing(effects);
    if ids != [] {
      var speaker := Last(ids);
      LastOfListing(ids, effects);
      TextIgnoresOthers(effects, speaker);
      forall id | id in ids && id != speaker
        ensures FirstIndex(effects, id) < FirstIndex(effects, speaker)
      {
        LastListedCameLast(effects, id);
      }
      if Faithful(effects) {
        FaithfulText(effects, speaker);
      }
    }
  }

  lemma NothingHeard()
    ensures TurnSoFar(NEW_TURN, [])
  {
  }

  // ---------------------------------------------------------------- where the promises end

  /**
    Over all the events it recorded, a run has answered every request exactly once if and only if its
    usage notifications parse and reconcile, or the one it died on is no request itself.
   */
  lemma RecordedRequestsAnswered(config: Config, prompt: string, inbox: seq<Timed>)
    ensures var end := RunOf(config, prompt, inbox).1;
      AnsweredOnceInOrder(ServerRequests(end.events), Replies(end.sent)) <==>
        || (AllParse(end.events) && Reconciles(Notifications(end.events)))
        || (end.events != [] && !IsServerRequest(Last(end.events).message))
  {
    hide Reconciles, Notifications, RunOf, Replies, IsServerRequest, AllParse, Inv, Tracked, MarksExact, WellNumbered, IsErrorResponse;
    EveryRequestRefusedOnce(config, prompt, inbox);
    UsageAccountingIsExact(config, prompt, inbox);
    RunSettles(config, prompt, inbox);
  }

  /** A usage notification without parameters that is a request as well. */
  const MALFORMED: Object := map["id" := Int(7), "method" := Str(USAGE_METHOD)]

  lemma MalformedIsRefused()
    ensures ReadNotification(MALFORMED) == Err(ParamsNotObject) && IsServerRequest(MALFORMED)
  {
    assert Get(MALFORMED, "params") == Null;
  }

  lemma MalformedEndsReading(s: Session, id: int)
    requires s.unread == [Timed(MALFORMED, 0.0)]
    ensures Await(s, id) == (Err(BadUsage(ParamsNotObject)), s.(unread := [], events := s.events + s.unread))
  {
    hide ReadNotification, IsServerRequest, MALFORMED;
    MalformedIsRefused();
    assert s.unread[1..] == [];
  }

  /** It is recorded, and the run dies on it before answering. */
  lemma MalformedUsageGoesUnanswered(config: Config, prompt: string)
    ensures var (r, end) := RunOf(config, prompt, [Timed(MALFORMED, 0.0)]);
      r == Err(BadUsage(ParamsNotObject)) && ServerRequests(end.events) == [MALFORMED] && Replies(end.sent) == []
  {
    hide Call, Await, MALFORMED, ReadNotification, IsServerRequest, Converse;
    MalformedIsRefused();
    var s := Send(Start([Timed(MALFORMED, 0.0)]), INITIALIZE);
    MalformedEndsReading(s, 1);
    OwnMessagesAreNoReplies(config, "", prompt);
    var end := RunOf(config, prompt, [Timed(MALFORMED, 0.0)]).1;
    assert end.events == [Timed(MALFORMED, 0.0)] && end.sent == [INITIALIZE];
    assert Init(end.events) == [] && Init(end.sent) == [];
  }

  predicate IsQuiet(message: Object) {
    Get(message, "method") != Str(USAGE_METHOD) && !IsServerRequest(message)
  }

  /** A message that is neither a usage notification nor a request is only recorded. */
  lemma QuietMessageIsRecorded(s: Session)
    requires s.unread != [] && IsQuiet(s.unread[0].message)
    ensures Absorb(s) == (Ok(s.unread[0].message), s.(unread := s.unread[1..], events := s.events + [s.unread[0]]))
  {
  }

  function ResponseMessage(id: int, result: Object): Object {
    map["jsonrpc" := Str("2.0"), "id" := Int(id), "result" := Obj(result)]
  }

  const THREAD: Object := map["thread" := Obj(map["id" := Str("t")])]
  const COMPLETED: Object := map["method" := Str("turn/completed"), "params" := Obj(map["turn" := Str("done")])]

  /** A short turn in which the agent says `hi` and `turn/completed` carries a string. */
  const SHORT_TURN: seq<Timed> := [
    Timed(ResponseMessage(1, map[]), 0.0), Timed(ResponseMessage(2, THREAD), 1.0),
    Timed(DeltaMessage("a", "hi"), 2.0), Timed(COMPLETED, 3.0)]

  lemma ResponsesAreQuiet()
    ensures forall id: int, result: Object :: IsQuiet(ResponseMessage(id, result))
    ensures forall id: int, result: Object :: EffectOf(ResponseMessage(id, result)) == Silent
    ensures forall id: int, result: Object :: Get(ResponseMessage(id, result), "id") == Int(id) && "error" !in ResponseMessage(id, result)
  {
    forall id: int, result: Object
      ensures IsQuiet(ResponseMessage(id, result)) && EffectOf(ResponseMessage(id, result)) == Silent
    {
      assert Get(ResponseMessage(id, result), "method") == Null;
    }
  }

  lemma ThreadIsNamed()
    ensures ThreadId(ResponseMessage(2, THREAD)) == Ok("t")
  {
    var message := ResponseMessage(2, THREAD);
    assert "result" in message && message["result"] == Obj(THREAD);
    assert "thread" in THREAD && THREAD["thread"] == Obj(map["id" := Str("t")]);
  }

  lemma DeltaIsQuiet(id: string, text: string)
    ensures IsQuiet(DeltaMessage(id, text)) && !IsTurnCompleted(DeltaMessage(id, text)) && "result" !in DeltaMessage(id, text)
  {
    assert Get(DeltaMessage(id, text), "method") == Str("item/agentMessage/delta") && "id" !in DeltaMessage(id, text);
    assert "item/agentMessage/delta"[0] != USAGE_METHOD[0] && "item/agentMessage/delta"[0] != "turn/completed"[0];
  }

  lemma CompletionIsQuiet()
    ensures IsQuiet(COMPLETED) && "result" !in COMPLETED && IsTurnCompleted(COMPLETED) && TurnOf(COMPLETED) == Str("done")
    ensures Get(COMPLETED, "method") !in {Str("item/agentMessage/delta"), Str("item/completed")}
  {
    assert Get(COMPLETED, "method") == Str("turn/completed") && "id" !in COMPLETED;
    assert "turn/completed"[1] != USAGE_METHOD[1] && "turn/completed"[0] != "item/agentMessage/delta"[0] && "turn/completed"[0] != "item/completed"[0];
  }

  lemma ShortTurnIsQuiet()
    ensures IsQuiet(DeltaMessage("a", "hi")) && EffectOf(DeltaMessage("a", "hi")) == Delta("a", "hi") && "result" !in DeltaMessage("a", "hi")
    ensures !IsTurnCompleted(DeltaMessage("a", "hi"))
    ensures IsQuiet(COMPLETED) && EffectOf(COMPLETED) == Silent && "result" !in COMPLETED && IsTurnCompleted(COMPLETED)
    ensures TurnOf(COMPLETED) == Str("done")
  {
    hide IsQuiet, EffectOf, DeltaMessage, COMPLETED, IsTurnCompleted, TurnOf, Get;
    DeltaIsQuiet("a", "hi");
    CompletionIsQuiet();
    MessagesAreHeard("a", "hi", COMPLETED);
  }

  /** The handshake of the short turn. */
  lemma ShortHandshake(config: Config, prompt: string) returns (s: Session)
    ensures Handshake(config, prompt, SHORT_TURN) == (Ok("t"), s)
    ensures s.unread == SHORT_TURN[2..] && s.events == SHORT_TURN[..2]
  {
    hide Absorb, Call, ResponseMessage, DeltaMessage, COMPLETED, THREAD, ThreadId, ThreadStart, TurnStart, IsQuiet, Get;
    ResponsesAreQuiet();
    ThreadIsNamed();
    var s0 := Send(Start(SHORT_TURN), INITIALIZE);
    QuietMessageIsRecorded(s0);
    var s1 := Await(s0, 1).1;
    assert Await(s0, 1).0 == Ok(ResponseMessage(1, map[])) && s1.unread == SHORT_TURN[1..] && s1.events == SHORT_TURN[..1];
    var s2 := Send(Send(s1, INITIALIZED), ThreadStart(config));
    QuietMessageIsRecorded(s2);
    var s3 := Await(s2, 2).1;
    assert Await(s2, 2).0 == Ok(ResponseMessage(2, THREAD)) && s3.unread == SHORT_TURN[2..] && s3.events == SHORT_TURN[..2];
    s := Send(s3, TurnStart(config, "t", prompt));
  }

  lemma ShortConversation(s: Session)
    requires s.unread == SHORT_TURN[2..] && s.events == SHORT_TURN[..2]
    ensures Converse(s, NEW_TURN).0.Ok? && Converse(s, NEW_TURN).0.value.finalOutput == ""
    ensures Converse(s, NEW_TURN).1.events == SHORT_TURN
  {
    hide Absorb, ResponseMessage, DeltaMessage, COMPLETED, THREAD, EffectOf, TurnOf, IsTurnCompleted, IsQuiet;
    ShortTurnIsQuiet();
    QuietMessageIsRecorded(s);
    var next := Absorb(s).1;
    assert next.unread == SHORT_TURN[3..] && next.events == SHORT_TURN[..3];
    QuietMessageIsRecorded(next);
    var heard := NEW_TURN.(board := Hear([], Delta("a", "hi")));
    assert Converse(s, NEW_TURN) == Converse(next, heard);
    assert Absorb(next).1.events == SHORT_TURN;
    assert Converse(next, heard).0 == Ok(heard);
  }

  /** The agent's text is lost when `turn/completed` carries a turn that is no object. */
  lemma NonObjectTurnLosesOutput(config: Config, prompt: string)
    ensures RunOf(config, prompt, SHORT_TURN).0.Ok?
    ensures var run := RunOf(config, prompt, SHORT_TURN).0.value;
      run.finalOutput == "" && run.events == SHORT_TURN && TextOf(Effects(SHORT_TURN), "a") == "hi"
  {
    hide Handshake, Converse, SHORT_TURN;
    var s := ShortHandshake(config, prompt);
    ShortConversation(s);
    ShortTurnIsHeard();
  }

  lemma EffectsOfMore(events: seq<Timed>, next: Timed)
    ensures Effects(events + [next]) == Effects(events) + [EffectOf(next.message)]
  {
    hide EffectOf;
    assert Init(events + [next]) == events;
  }

  lemma ShortTurnIsHeard()
    ensures TextOf(Effects(SHORT_TURN), "a") == "hi"
  {
    hide ResponseMessage, DeltaMessage, COMPLETED, THREAD, EffectOf, IsQuiet, Get, Effects;
    ResponsesAreQuiet();
    ShortTurnIsQuiet();
    var t := SHORT_TURN;
    assert [] + [t[0]] == t[..1] && t[..1] + [t[1]] == t[..2] && t[..2] + [t[2]] == t[..3] && t[..3] + [t[3]] == t;
    EffectsOfMore([], t[0]);
    EffectsOfMore(t[..1], t[1]);
    EffectsOfMore(t[..2], t[2]);
    EffectsOfMore(t[..3], t[3]);
    assert Effects([]) == [] by { NoEffects(); }
    assert Effects(t) == [Silent, Silent, Delta("a", "hi"), Silent];
    TextOfShortTurn();
  }

  lemma NoEffects()
    ensures Effects([]) == []
  {
  }

  lemma TextOfShortTurn()
    ensures TextOf([Silent, Silent, Delta("a", "hi"), Silent], "a") == "hi"
  {
    var e: seq<Effect> := [Silent, Silent, Delta("a", "hi"), Silent];
    assert Init(e) == e[..3] && Init(e[..3]) == e[..2] && Init(e[..2]) == e[..1] && Init(e[..1]) == [];
    assert TextOf(e[..1], "a") == "" by { assert Last(e[..1]) == Silent; }
    assert TextOf(e[..2], "a") == "" by { assert Last(e[..2]) == Silent; }
    assert TextOf(e[..3], "a") == "" + "hi" by { assert Last(e[..3]) == Delta("a", "hi"); }
  }
}

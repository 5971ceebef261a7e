/** What a completed run sent, to which thread, and under which turn id, read off the messages themselves. */
module AppServerProtocol {
  import opened Prelude
  import opened JsonValues
  import opened CodexUsage
  import opened AgentMessages
  import opened AppServer
  import opened AppServerSafety

  // ---------------------------------------------------------------- outgoing calls

  /** Section 4 of the JSON-RPC 2.0 specification: a request object. */
  predicate IsRequest(m: Object, id: int, name: string) {
    Get(m, "jsonrpc") == Str("2.0") && Get(m, "id") == Int(id) && Get(m, "method") == Str(name) && "result" !in m && "error" !in m
  }

  /** Section 4.1: a notification, which carries no id. */
  predicate IsNotification(m: Object, name: string) {
    Get(m, "jsonrpc") == Str("2.0") && "id" !in m && Get(m, "method") == Str(name)
  }

  predicate OpensThread(m: Object, config: Config) {
    && IsRequest(m, 2, "thread/start")
    && GetIn(m, "params", "model") == Str(config.model)
    && GetIn(m, "params", "modelProvider") == Str(config.provider)
    && GetIn(m, "params", "cwd") == Str(config.cwd)
    && GetIn(m, "params", "approvalPolicy") == Str("never")
    && GetIn(m, "params", "sandbox") == Str("workspace-write")
    && GetIn(m, "params", "ephemeral") == Bool(true)
    && GetIn(m, "params", "historyMode") == Str("legacy")
  }

  /** The input is one text item that holds the prompt. */
  predicate HoldsPrompt(input: Json, prompt: string) {
    input.Arr? && |input.items| == 1 && input.items[0].Obj?
    && Get(input.items[0].fields, "type") == Str("text") && Get(input.items[0].fields, "text") == Str(prompt)
  }

  predicate OpensTurn(m: Object, config: Config, threadId: string, prompt: string) {
    && IsRequest(m, 3, "turn/start")
    && GetIn(m, "params", "threadId") == Str(threadId)
    && HoldsPrompt(GetIn(m, "params", "input"), prompt)
    && GetIn(m, "params", "model") == Str(config.model)
    && GetIn(m, "params", "cwd") == Str(config.cwd)
    && GetIn(m, "params", "approvalPolicy") == Str("never")
    && GetIn(m, "params", "sandboxPolicy").Obj? && Get(GetIn(m, "params", "sandboxPolicy").fields, "type") == Str("workspaceWrite")
    && GetIn(m, "params", "outputSchema") == config.outputSchema
  }

  predicate OpensConnection(m: Object) {
    && IsRequest(m, 1, "initialize")
    && GetIn(m, "params", "clientInfo").Obj? && Get(GetIn(m, "params", "clientInfo").fields, "name") == Str("repopact-pactbench")
    && GetIn(m, "params", "capabilities").Obj? && Get(GetIn(m, "params", "capabilities").fields, "experimentalApi") == Bool(true)
  }

  lemma CallReads(id: int, name: string, params: Object, key: string)
    ensures IsRequest(Call(id, name, params), id, name) && GetIn(Call(id, name, params), "params", key) == Get(params, key)
  {
    assert Get(Call(id, name, params), "params") == Obj(params);
  }

  lemma ThreadParamsRead(config: Config)
    ensures var o := ThreadParams(config);
      && Get(o, "model") == Str(config.model) && Get(o, "modelProvider") == Str(config.provider) && Get(o, "cwd") == Str(config.cwd)
      && Get(o, "approvalPolicy") == Str("never") && Get(o, "sandbox") == Str("workspace-write")
      && Get(o, "ephemeral") == Bool(true) && Get(o, "historyMode") == Str("legacy")
  {
  }

  lemma ThreadStartOpensThread(config: Config)
    ensures OpensThread(ThreadStart(config), config)
  {
    hide Call, IsRequest, GetIn, Get, ThreadParams;
    var o := ThreadParams(config);
    ThreadParamsRead(config);
    CallReads(2, "thread/start", o, "model");
    CallReads(2, "thread/start", o, "modelProvider");
    CallReads(2, "thread/start", o, "cwd");
    CallReads(2, "thread/start", o, "approvalPolicy");
    CallReads(2, "thread/start", o, "sandbox");
    CallReads(2, "thread/start", o, "ephemeral");
    CallReads(2, "thread/start", o, "historyMode");
  }

  lemma TurnParamsRead(config: Config, threadId: string, prompt: string)
    ensures var o := TurnParams(config, threadId, prompt);
      && Get(o, "threadId") == Str(threadId) && HoldsPrompt(Get(o, "input"), prompt)
      && Get(o, "model") == Str(config.model) && Get(o, "cwd") == Str(config.cwd) && Get(o, "approvalPolicy") == Str("never")
      && Get(o, "outputSchema") == config.outputSchema && Get(o, "sandboxPolicy") == Obj(map["type" := Str("workspaceWrite")])
  {
    assert TurnParams(config, threadId, prompt)["input"] == Arr([Obj(map["type" := Str("text"), "text" := Str(prompt)])]);
    InputHoldsPrompt(prompt);
    hide HoldsPrompt;
  }

  lemma TurnStartOpensTurn(config: Config, threadId: string, prompt: string)
    ensures OpensTurn(TurnStart(config, threadId, prompt), config, threadId, prompt)
  {
    var policy: Object := map["type" := Str("workspaceWrite")];
    assert Get(policy, "type") == Str("workspaceWrite");
    hide Call, IsRequest, GetIn, Get, TurnParams, HoldsPrompt;
    var o := TurnParams(config, threadId, prompt);
    TurnParamsRead(config, threadId, prompt);
    CallReads(3, "turn/start", o, "threadId");
    CallReads(3, "turn/start", o, "input");
    CallReads(3, "turn/start", o, "model");
    CallReads(3, "turn/start", o, "cwd");
    CallReads(3, "turn/start", o, "approvalPolicy");
    CallReads(3, "turn/start", o, "sandboxPolicy");
    CallReads(3, "turn/start", o, "outputSchema");
  }

  lemma InputHoldsPrompt(prompt: string)
    ensures HoldsPrompt(Arr([Obj(map["type" := Str("text"), "text" := Str(prompt)])]), prompt)
  {
  }

  lemma InitializeOpensConnection()
    ensures OpensConnection(INITIALIZE) && IsNotification(INITIALIZED, "initialized")
  {
    var params: Object := map[
      "clientInfo" := Obj(map["name" := Str("repopact-pactbench"), "version" := Str("1")]),
      "capabilities" := Obj(map["experimentalApi" := Bool(true)])];
    assert INITIALIZE == Call(1, "initialize", params);
    CallReads(1, "initialize", params, "clientInfo");
    CallReads(1, "initialize", params, "capabilities");
  }

  // ---------------------------------------------------------------- the thread

  /** Event k is the first from `start` on that carries the id, and it is no error. */
  predicate AnswersFirst(events: seq<Timed>, start: nat, k: nat, id: int) {
    && start <= k < |events| && EqualsInt(Get(events[k].message, "id"), id) && "error" !in events[k].message
    && forall i :: start <= i < k ==> !EqualsInt(Get(events[i].message, "id"), id)
  }

  /** The response carries a thread object with this id, which is not empty. */
  predicate NamesThread(response: Object, threadId: string) {
    var thread := GetIn(response, "result", "thread");
    thread.Obj? && Get(thread.fields, "id") == Str(threadId) && threadId != ""
  }

  lemma ThreadIdIsNamed(response: Object)
    ensures forall id :: ThreadId(response) == Ok(id) <==> NamesThread(response, id)
  {
  }

  lemma AwaitAnswers(s: Session, id: int)
    requires Await(s, id).0.Ok?
    ensures var (r, next) := Await(s, id);
      && next.events != [] && |s.events| <= |next.events| && AnswersFirst(next.events, |s.events|, |next.events| - 1, id)
      && r.value == Last(next.events).message && next.events[..|s.events|] == s.events
  {
    hide Await;
    AwaitEndsAtFirstMatch(s, id);
  }

  lemma AnswersFirstKeeps(events: seq<Timed>, more: seq<Timed>, start: nat, k: nat, id: int)
    requires |events| <= |more| && more[..|events|] == events && AnswersFirst(events, start, k, id)
    ensures AnswersFirst(more, start, k, id)
  {
    assert forall i :: 0 <= i < |events| ==> more[i] == events[i];
  }

  /** The handshake ends at the first answer to request 2 after the first answer to request 1. */
  lemma HandshakeNamesThread(config: Config, prompt: string, inbox: seq<Timed>) returns (i: nat, k: nat)
    requires Handshake(config, prompt, inbox).0.Ok?
    ensures var (threadId, s) := Handshake(config, prompt, inbox);
      && AnswersFirst(s.events, 0, i, 1) && AnswersFirst(s.events, i + 1, k, 2) && k == |s.events| - 1
      && NamesThread(s.events[k].message, threadId.value)
  {
    hide Await, ThreadId, NamesThread, AnswersFirst, Call;
    var s0 := Send(Start(inbox), INITIALIZE);
    AwaitAnswers(s0, 1);
    var (_, s1) := Await(s0, 1);
    var s2 := Send(Send(s1, INITIALIZED), ThreadStart(config));
    AwaitAnswers(s2, 2);
    var (response, s3) := Await(s2, 2);
    ThreadIdIsNamed(response.value);
    i, k := |s1.events| - 1, |s3.events| - 1;
    AnswersFirstKeeps(s1.events, s3.events, 0, i, 1);
    assert ThreadId(response.value) == Ok(Handshake(config, prompt, inbox).0.value);
  }

  /**
    Every completed run sent exactly four calls of its own: it opened the connection, announced itself,
    opened a thread with the configured model, provider, directory and policies, and opened a turn with
    the prompt as its one text, on the thread that the first answer to request 2 named.
   */
  lemma CompletedRunSends(config: Config, prompt: string, inbox: seq<Timed>)
    requires RunOf(config, prompt, inbox).0.Ok?
    ensures
      var (r, end) := RunOf(config, prompt, inbox);
      var run, own := r.value, OwnCalls(end.sent);
      && |own| == 4 && OpensConnection(own[0]) && IsNotification(own[1], "initialized")
      && OpensThread(own[2], config) && OpensTurn(own[3], config, run.threadId, prompt)
      && exists i: nat, k: nat ::
           AnswersFirst(run.events, 0, i, 1) && AnswersFirst(run.events, i + 1, k, 2) && NamesThread(run.events[k].message, run.threadId)
  {
    hide Handshake, Converse, OwnCalls, OpensConnection, OpensThread, OpensTurn, IsNotification, AnswersFirst, NamesThread;
    CompletedRunCalls(config, prompt, inbox);
    var (threadId, s) := Handshake(config, prompt, inbox);
    var i, k := HandshakeNamesThread(config, prompt, inbox);
    ConverseEndsAtFirstCompletion(s, NEW_TURN);
    var run := RunOf(config, prompt, inbox).0.value;
    AnswersFirstKeeps(s.events, run.events, 0, i, 1);
    AnswersFirstKeeps(s.events, run.events, i + 1, k, 2);
    assert run.events[k] == s.events[k] by { assert run.events[..|s.events|] == s.events; AnswerIsEvent(s.events, i + 1, k, 2); }
    InitializeOpensConnection();
    ThreadStartOpensThread(config);
    TurnStartOpensTurn(config, threadId.value, prompt);
  }

  lemma AnswerIsEvent(events: seq<Timed>, start: nat, k: nat, id: int)
    requires AnswersFirst(events, start, k, id)
    ensures k < |events|
  {
  }

  // ---------------------------------------------------------------- the turn id

  /** A response to request 3 whose result carries a turn object with an id. */
  predicate NamesTurn(message: Object) {
    var turn := GetIn(message, "result", "turn");
    EqualsInt(Get(message, "id"), 3) && turn.Obj? && "id" in turn.fields
  }

  function NamedTurn(message: Object): Json
    requires NamesTurn(message)
  {
    Get(GetIn(message, "result", "turn").fields, "id")
  }

  /** The id that the last such response names, or else the empty string. */
  ghost predicate LastNamed(turnId: Json, events: seq<Timed>) {
    || (turnId == Str("") && forall i :: 0 <= i < |events| ==> !NamesTurn(events[i].message))
    || exists i :: 0 <= i < |events| && NamesTurn(events[i].message) && turnId == NamedTurn(events[i].message)
         && forall j :: i < j < |events| ==> !NamesTurn(events[j].message)
  }

  /** The id in the completed turn if it has one, or else the one that was named last. */
  ghost predicate TurnIdExplained(turnId: Json, events: seq<Timed>) {
    && events != []
    && var turn := TurnOf(Last(events).message);
      if turn.Obj? && "id" in turn.fields then turnId == turn.fields["id"] else LastNamed(turnId, events)
  }

  lemma TurnIdStep(message: Object, turnId: Json)
    ensures TurnIdFromResult(message, turnId).Some? ==>
      TurnIdFromResult(message, turnId).value == if NamesTurn(message) then NamedTurn(message) else turnId
  {
  }

  lemma NamedNext(turnId: Json, events: seq<Timed>, next: Timed)
    requires LastNamed(turnId, events)
    ensures LastNamed(if NamesTurn(next.message) then NamedTurn(next.message) else turnId, events + [next])
  {
    hide NamesTurn, NamedTurn;
    var all := events + [next];
    assert all[|events|] == next;
    assert forall i :: 0 <= i < |events| ==> all[i] == events[i];
    if !NamesTurn(next.message) && !(turnId == Str("") && forall i :: 0 <= i < |events| ==> !NamesTurn(events[i].message)) {
      var i :| 0 <= i < |events| && NamesTurn(events[i].message) && turnId == NamedTurn(events[i].message)
         && forall j :: i < j < |events| ==> !NamesTurn(events[j].message);
      assert NamesTurn(all[i].message);
    }
  }

  lemma CompletionNamesTurn(t: Turn, events: seq<Timed>)
    requires events != [] && LastNamed(t.turnId, events)
    ensures TurnIdExplained(CompleteTurn(t, Last(events).message).turnId, events)
  {
    hide LastNamed, ExtractText;
  }

  lemma {:induction false} ConverseNamesTurn(s: Session, t: Turn, heard: seq<Timed>)
    requires Converse(s, t).0.Ok? && LastNamed(t.turnId, heard)
    requires |heard| <= |s.events| && s.events[|s.events| - |heard|..] == heard
    ensures var (r, end) := Converse(s, t); var start := |s.events| - |heard|;
      start <= |end.events| && TurnIdExplained(r.value.turnId, end.events[start..])
    decreases |s.unread|
  {
    hide Absorb, LastNamed, TurnIdExplained, TurnIdFromResult, CompleteTurn, IsTurnCompleted, EffectOf, Hear, NamesTurn;
    AbsorbReadsOne(s);
    AbsorbConsumes(s);
    var (r, next) := Absorb(s);
    var head, start := s.unread[0], |s.events| - |heard|;
    var now := heard + [head];
    assert next.events[start..] == now;
    var heardTurn := t.(board := Hear(t.board, EffectOf(r.value)));
    TurnIdStep(r.value, heardTurn.turnId);
    NamedNext(t.turnId, heard, head);
    var named := heardTurn.(turnId := TurnIdFromResult(r.value, heardTurn.turnId).value);
    if IsTurnCompleted(r.value) {
      CompletionNamesTurn(named, now);
    } else {
      ConverseNamesTurn(next, named, now);
    }
  }

  /** The turn id of a completed run: that of the completed turn, or the one named last, or empty. */
  lemma CompletedRunNamesTurn(config: Config, prompt: string, inbox: seq<Timed>)
    requires RunOf(config, prompt, inbox).0.Ok?
    ensures var run := RunOf(config, prompt, inbox).0.value;
      TurnIdExplained(run.turnId, TurnEvents(config, prompt, inbox, run))
  {
    hide Handshake, Converse, TurnIdExplained;
    var (_, s) := Handshake(config, prompt, inbox);
    assert LastNamed(NEW_TURN.turnId, []);
    ConverseNamesTurn(s, NEW_TURN, []);
    ConverseEndsAtFirstCompletion(s, NEW_TURN);
  }

  // ---------------------------------------------------------------- texts inside a turn

  /** An object gives its own text, then those under `item`, `turn`, `content` and `parts`, in this order. */
  lemma TextsInOrder(own: string, item: string, turn: string, content: string, parts: string)
    ensures ExtractText(Obj(map["parts" := Str(parts), "content" := Str(content), "turn" := Str(turn), "item" := Str(item), "text" := Str(own)]))
      == [own, item, turn, content, parts]
  {
    var o: Object := map["parts" := Str(parts), "content" := Str(content), "turn" := Str(turn), "item" := Str(item), "text" := Str(own)];
    assert o["text"] == Str(own) && o["item"] == Str(item) && o["turn"] == Str(turn) && o["content"] == Str(content) && o["parts"] == Str(parts);
    assert ExtractText(Obj(o)) == [own] + ExtractText(o["item"]) + ExtractText(o["turn"]) + ExtractText(o["content"]) + ExtractText(o["parts"]);
  }

  /** A list gives the texts of its elements in order. */
  lemma {:induction false} TextsOfList(a: seq<Json>, b: seq<Json>)
    ensures ExtractTexts(a + b) == ExtractTexts(a) + ExtractTexts(b)
  {
    hide ExtractText;
    if a == [] {
      assert a + b == b;
    } else {
      assert (a + b)[1..] == a[1..] + b;
      TextsOfList(a[1..], b);
    }
  }

  /** Values under any other key, and values of any other kind, give no text. */
  lemma OtherTextsAreIgnored(o: Object, key: string, value: Json)
    requires key !in {"text", "item", "turn", "content", "parts"}
    ensures ExtractText(Obj(o[key := value])) == ExtractText(Obj(o))
    ensures value.Null? || value.Bool? || value.Int? || value.Real? ==> ExtractText(value) == []
  {
    var with := o[key := value];
    assert forall k :: k != key ==> (k in with <==> k in o) && (k in o ==> with[k] == o[k]);
  }

  // ---------------------------------------------------------------- when a run completes

  /** A response to request 3 whose result is no object, on which the source raises. */
  predicate BreaksTurn(message: Object) {
    EqualsInt(Get(message, "id"), 3) && "result" in message && !message["result"].Obj?
  }

  /** Event n is the first completed turn from `start` on, and nothing up to it breaks the turn. */
  predicate CompletesFirst(events: seq<Timed>, start: nat, n: nat) {
    && start <= n < |events| && IsTurnCompleted(events[n].message)
    && (forall i :: start <= i < n ==> !IsTurnCompleted(events[i].message))
    && (forall i :: start <= i <= n ==> !BreaksTurn(events[i].message))
  }

  lemma {:induction false} TrackedPrefix(events: seq<Timed>, n: nat)
    requires n <= |events| && Tracked(events).Ok?
    ensures Tracked(events[..n]).Ok?
  {
    hide Observe;
    if n < |events| {
      assert Init(events)[..n] == events[..n];
      TrackedPrefix(Init(events), n);
    } else {
      assert events[..n] == events;
    }
  }

  /** Reading the next message succeeds when the usage up to it is in order. */
  lemma AbsorbSucceeds(s: Session, inbox: seq<Timed>)
    requires Inv(s, inbox) && |s.events| < |inbox| && Tracked(inbox[..|s.events| + 1]).Ok?
    ensures var (r, next) := Absorb(s);
      r == Ok(inbox[|s.events|].message) && Inv(next, inbox) && next.events == inbox[..|s.events| + 1]
  {
    hide Absorb, ServerRequests, AnsweredOnceInOrder;
    AbsorbSettles(s, inbox);
    assert s.unread != [] && s.unread[0] == inbox[|s.events|];
    assert inbox[..|s.events| + 1] == s.events + [s.unread[0]];
    var (r, next) := Absorb(s);
    assert !IsBadUsage(r) by {
      if IsBadUsage(r) {
        BadUsageReadsOne(s);
      }
    }
    OnlyUsageFails(s);
  }

  lemma BadUsageReadsOne(s: Session)
    requires IsBadUsage(Absorb(s).0)
    ensures s.unread != [] && Absorb(s).1.events == s.events + [s.unread[0]]
  {
  }

  lemma OnlyUsageFails(s: Session)
    requires s.unread != [] && !IsBadUsage(Absorb(s).0)
    ensures Absorb(s).0.Ok?
  {
  }

  lemma {:induction false} AwaitSucceeds(s: Session, id: int, inbox: seq<Timed>, k: nat)
    requires Inv(s, inbox) && AnswersFirst(inbox, |s.events|, k, id) && Tracked(inbox[..k + 1]).Ok?
    ensures var (r, next) := Await(s, id);
      r == Ok(inbox[k].message) && Inv(next, inbox) && next.events == inbox[..k + 1]
    decreases k - |s.events|
  {
    hide Absorb, Inv, Tracked;
    var n := |s.events|;
    assert Tracked(inbox[..n + 1]).Ok? by {
      TrackedPrefix(inbox[..k + 1], n + 1);
      assert inbox[..k + 1][..n + 1] == inbox[..n + 1];
    }
    AbsorbSucceeds(s, inbox);
    if n < k {
      AwaitSucceeds(Absorb(s).1, id, inbox, k);
    }
  }

  lemma BreaksIff(message: Object, turnId: Json)
    ensures TurnIdFromResult(message, turnId).None? <==> BreaksTurn(message)
  {
  }

  lemma {:induction false} ConverseSucceeds(s: Session, t: Turn, inbox: seq<Timed>, n: nat)
    requires Inv(s, inbox) && CompletesFirst(inbox, |s.events|, n) && Tracked(inbox[..n + 1]).Ok?
    ensures Converse(s, t).0.Ok?
    decreases n - |s.events|
  {
    hide Absorb, Inv, Tracked, TurnIdFromResult, CompleteTurn, IsTurnCompleted, EffectOf, Hear, BreaksTurn;
    var i := |s.events|;
    assert Tracked(inbox[..i + 1]).Ok? by {
      TrackedPrefix(inbox[..n + 1], i + 1);
      assert inbox[..n + 1][..i + 1] == inbox[..i + 1];
    }
    AbsorbSucceeds(s, inbox);
    var (r, next) := Absorb(s);
    var heard := t.(board := Hear(t.board, EffectOf(r.value)));
    BreaksIff(r.value, heard.turnId);
    if i < n {
      ConverseSucceeds(next, heard.(turnId := TurnIdFromResult(r.value, heard.turnId).value), inbox, n);
    }
  }

  /** A turn that ends ended at the first completion, and nothing broke it. */
  lemma {:induction false} ConverseCompletes(s: Session, t: Turn)
    requires Converse(s, t).0.Ok?
    ensures var end := Converse(s, t).1; end.events != [] && CompletesFirst(end.events, |s.events|, |end.events| - 1)
    decreases |s.unread|
  {
    hide Absorb, TurnIdFromResult, CompleteTurn, EffectOf, Hear, BreaksTurn, IsTurnCompleted;
    AbsorbReadsOne(s);
    AbsorbConsumes(s);
    ConverseEndsAtFirstCompletion(s, t);
    var (r, next) := Absorb(s);
    var heard := t.(board := Hear(t.board, EffectOf(r.value)));
    BreaksIff(r.value, heard.turnId);
    if !IsTurnCompleted(r.value) {
      var named := heard.(turnId := TurnIdFromResult(r.value, heard.turnId).value);
      ConverseCompletes(next, named);
      ConverseEndsAtFirstCompletion(next, named);
    }
  }

  /** The handshake and the turn of a completed run, by position in the inbox. */
  ghost predicate Completes(inbox: seq<Timed>, i: nat, k: nat, n: nat) {
    && AnswersFirst(inbox, 0, i, 1) && AnswersFirst(inbox, i + 1, k, 2) && (exists id :: NamesThread(inbox[k].message, id))
    && CompletesFirst(inbox, k + 1, n)
    && AllParse(inbox[..n + 1]) && Reconciles(Notifications(inbox[..n + 1]))
  }

  lemma TrackedIff(events: seq<Timed>)
    ensures Tracked(events).Ok? <==> AllParse(events) && Reconciles(Notifications(events))
  {
    hide Reconciles, AllParse, Notifications, Replay, Tracked;
    TrackedIsReplay(events);
    LedgerExactness(Notifications(events));
  }

  lemma CompletingHandshake(config: Config, prompt: string, inbox: seq<Timed>, i: nat, k: nat, id: string)
    requires AnswersFirst(inbox, 0, i, 1) && AnswersFirst(inbox, i + 1, k, 2) && NamesThread(inbox[k].message, id)
    requires Tracked(inbox[..k + 1]).Ok?
    ensures var (threadId, s) := Handshake(config, prompt, inbox);
      threadId == Ok(id) && Inv(s, inbox) && s.events == inbox[..k + 1]
  {
    hide Await, Inv, Tracked, ThreadId, Call, NamesThread;
    assert inbox[..k + 1][..i + 1] == inbox[..i + 1];
    TrackedPrefix(inbox[..k + 1], i + 1);
    OwnMessagesAreNoReplies(config, id, prompt);
    StartSettled(inbox);
    var s0 := Send(Start(inbox), INITIALIZE);
    SendKeepsInv(Start(inbox), INITIALIZE, inbox);
    AwaitSucceeds(s0, 1, inbox, i);
    var s1 := Await(s0, 1).1;
    var s2 := Send(Send(s1, INITIALIZED), ThreadStart(config));
    SendKeepsInv(s1, INITIALIZED, inbox);
    SendKeepsInv(Send(s1, INITIALIZED), ThreadStart(config), inbox);
    AwaitSucceeds(s2, 2, inbox, k);
    var (response, s3) := Await(s2, 2);
    ThreadIdIsNamed(response.value);
    SendKeepsInv(s3, TurnStart(config, id, prompt), inbox);
  }

  lemma CompletingInboxCompletes(config: Config, prompt: string, inbox: seq<Timed>, i: nat, k: nat, n: nat)
    requires Completes(inbox, i, k, n)
    ensures RunOf(config, prompt, inbox).0.Ok?
  {
    PositionsAscend(inbox, i, k, n);
    hide RunOf, Handshake, Converse, Inv, Tracked, AnswersFirst, CompletesFirst, AllParse, Reconciles, NamesThread, Notifications;
    TrackedIff(inbox[..n + 1]);
    assert inbox[..n + 1][..k + 1] == inbox[..k + 1];
    TrackedPrefix(inbox[..n + 1], k + 1);
    var id :| NamesThread(inbox[k].message, id);
    CompletingHandshake(config, prompt, inbox, i, k, id);
    var s := Handshake(config, prompt, inbox).1;
    ConverseSucceeds(s, NEW_TURN, inbox, n);
    RunOfBoth(config, prompt, inbox);
  }

  lemma RunOfBoth(config: Config, prompt: string, inbox: seq<Timed>)
    requires Handshake(config, prompt, inbox).0.Ok? && Converse(Handshake(config, prompt, inbox).1, NEW_TURN).0.Ok?
    ensures RunOf(config, prompt, inbox).0.Ok?
  {
    hide Handshake, Converse;
  }

  lemma PositionsAscend(inbox: seq<Timed>, i: nat, k: nat, n: nat)
    requires Completes(inbox, i, k, n)
    ensures i < k < n < |inbox|
  {
  }

  lemma CompletedInboxCompletes(config: Config, prompt: string, inbox: seq<Timed>) returns (i: nat, k: nat, n: nat)
    requires RunOf(config, prompt, inbox).0.Ok?
    ensures Completes(inbox, i, k, n) && RunOf(config, prompt, inbox).0.value.events == inbox[..n + 1]
  {
    hide Handshake, Converse, AnswersFirst, CompletesFirst, NamesThread, AllParse, Reconciles, Notifications, Inv, StoppedByUsage;
    RunSettles(config, prompt, inbox);
    UsageAccountingIsExact(config, prompt, inbox);
    var (threadId, s) := Handshake(config, prompt, inbox);
    i, k := HandshakeNamesThread(config, prompt, inbox);
    ConverseEndsAtFirstCompletion(s, NEW_TURN);
    ConverseCompletes(s, NEW_TURN);
    var (r, end) := RunOf(config, prompt, inbox);
    n := |end.events| - 1;
    EventsArePrefix(end, inbox);
    assert inbox[..|s.events|] == s.events by { assert end.events[..|s.events|] == s.events; }
    AnswersFirstKeeps(s.events, inbox, 0, i, 1);
    AnswersFirstKeeps(s.events, inbox, i + 1, k, 2);
    AnswerIsEvent(s.events, i + 1, k, 2);
    assert inbox[k] == s.events[k];
    CompletesFirstKeeps(end.events, inbox, |s.events|, n);
  }

  lemma EventsArePrefix(s: Session, inbox: seq<Timed>)
    requires Inv(s, inbox)
    ensures |s.events| <= |inbox| && inbox[..|s.events|] == s.events
  {
  }

  lemma CompletesFirstKeeps(events: seq<Timed>, more: seq<Timed>, start: nat, n: nat)
    requires |events| <= |more| && more[..|events|] == events && CompletesFirst(events, start, n)
    ensures CompletesFirst(more, start, n)
  {
    assert forall i :: 0 <= i < |events| ==> more[i] == events[i];
  }

  /**
    A run completes exactly on these inboxes: an answer to request 1, then one to request 2 that names a
    thread, then a completed turn, each the first of its kind and no error, with every usage notification
    up to there in order and no malformed result for the turn.
   */
  lemma RunCompletesIff(config: Config, prompt: string, inbox: seq<Timed>)
    ensures RunOf(config, prompt, inbox).0.Ok? <==> exists i: nat, k: nat, n: nat :: Completes(inbox, i, k, n)
  {
    hide RunOf, Completes;
    if RunOf(config, prompt, inbox).0.Ok? {
      var i, k, n := CompletedInboxCompletes(config, prompt, inbox);
    }
    if i: nat, k: nat, n: nat :| Completes(inbox, i, k, n) {
      CompletingInboxCompletes(config, prompt, inbox, i, k, n);
    }
  }
}

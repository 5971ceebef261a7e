/**
  benchmarks/harness/codex_app_server.py: the JSON-RPC message loop of one run. The server's side is
  an inbox of messages, each with the clock reading (ms since start) at which it was handled; running
  past the end of the inbox is the source's closed stdout or expired deadline.
 */
module AppServer {
  import opened Prelude
  import opened JsonValues
  import opened CodexUsage
  import opened AgentMessages

  datatype Timed = Timed(message: Object, at: real)

  /** An accepted ledger entry with its clock reading and its index among the events. */
  datatype UsageMark = UsageMark(entry: AcceptedUsage, at: real, index: nat)

  datatype ProtocolError =
    | StreamEnded
    | BadUsage(error: LedgerError)
    | ErrorResponse(payload: Json)
    | ThreadIdMissing
    | NotADictionary  // the source's uncaught AttributeError

  /** The fields that one run updates, as a value. */
  datatype Session = Session(
    unread: seq<Timed>, events: seq<Timed>, serverRequests: seq<Object>,
    usage: seq<UsageMark>, sent: seq<Object>, ledger: LedgerState)

  datatype Config = Config(model: string, provider: string, cwd: string, outputSchema: Json)

  datatype AppServerRun = AppServerRun(
    events: seq<Timed>, usage: seq<UsageMark>, finalOutput: string,
    serverRequests: seq<Object>, threadId: string, turnId: Json)

  // ---------------------------------------------------------------- outgoing messages

  const REFUSAL_CODE := -32001
  const REFUSAL_TEXT := "benchmark app-server client does not grant approvals"

  function Refusal(id: Json): Object {
    map["jsonrpc" := Str("2.0"), "id" := id,
        "error" := Obj(map["code" := Int(REFUSAL_CODE), "message" := Str(REFUSAL_TEXT)])]
  }

  function Call(id: int, name: string, params: Object): Object {
    map["jsonrpc" := Str("2.0"), "id" := Int(id), "method" := Str(name), "params" := Obj(params)]
  }

  const INITIALIZE := Call(1, "initialize", map[
    "clientInfo" := Obj(map["name" := Str("repopact-pactbench"), "version" := Str("1")]),
    "capabilities" := Obj(map["experimentalApi" := Bool(true)])])

  const INITIALIZED: Object := map["jsonrpc" := Str("2.0"), "method" := Str("initialized"), "params" := Obj(map[])]

  function ThreadParams(config: Config): Object {
    map[
      "model" := Str(config.model), "modelProvider" := Str(config.provider), "cwd" := Str(config.cwd),
      "ephemeral" := Bool(true), "approvalPolicy" := Str("never"), "sandbox" := Str("workspace-write"),
      "historyMode" := Str("legacy")]
  }

  function ThreadStart(config: Config): Object {
    Call(2, "thread/start", ThreadParams(config))
  }

  function TurnParams(config: Config, threadId: string, prompt: string): Object {
    map[
      "threadId" := Str(threadId),
      "input" := Arr([Obj(map["type" := Str("text"), "text" := Str(prompt)])]),
      "model" := Str(config.model), "cwd" := Str(config.cwd), "approvalPolicy" := Str("never"),
      "sandboxPolicy" := Obj(map["type" := Str("workspaceWrite")]),
      "outputSchema" := config.outputSchema]
  }

  function TurnStart(config: Config, threadId: string, prompt: string): Object {
    Call(3, "turn/start", TurnParams(config, threadId, prompt))
  }

  // ---------------------------------------------------------------- one message

  predicate IsServerRequest(message: Object) {
    "id" in message && Get(message, "method").Str?
  }

  /** Read, record and account one message, as both loops of the source begin. */
  function Account(s: Session): (Result<Object, ProtocolError>, Session) {
    if s.unread == [] then (Err(StreamEnded), s) else
    var head := s.unread[0];
    var read := s.(unread := s.unread[1..], events := s.events + [head]);
    match Observe(s.ledger, head.message)
    case Err(e) => (Err(BadUsage(e)), read)
    case Ok(ledger) => (Ok(head.message), read.(ledger := ledger, usage := Marked(s, ledger, head.at)))
  }

  function Marked(s: Session, ledger: LedgerState, at: real): seq<UsageMark> {
    if |ledger.accepted| > |s.ledger.accepted| then s.usage + [UsageMark(Last(ledger.accepted), at, |s.events|)] else s.usage
  }

  /** Answer a server-initiated request with the refusal error. */
  function Refuse(s: Session, message: Object): Session {
    if IsServerRequest(message) then
      s.(serverRequests := s.serverRequests + [message], sent := s.sent + [Refusal(message["id"])])
    else s
  }

  function Absorb(s: Session): (Result<Object, ProtocolError>, Session) {
    var (r, read) := Account(s);
    if r.Err? then (r, read) else (r, Refuse(read, r.value))
  }

  function Send(s: Session, message: Object): Session {
    s.(sent := s.sent + [message])
  }

  // ---------------------------------------------------------------- the two loops

  /** `_await_response` */
  function Await(s: Session, id: int): (Result<Object, ProtocolError>, Session)
    decreases |s.unread|
  {
    var (r, next) := Absorb(s);
    if r.Err? then (r, next)
    else if EqualsInt(Get(r.value, "id"), id) then
      (if "error" in r.value then Err(ErrorResponse(r.value["error"])) else r, next)
    else Await(next, id)
  }

  datatype Turn = Turn(board: Board, turnId: Json, finalOutput: string)

  /** `_extract_text` */
  function ExtractText(value: Json): seq<string>
    decreases value, 1
  {
    match value
    case Str(s) => [s]
    case Arr(items) => ExtractTexts(items)
    case Obj(o) =>
      (if "text" in o && o["text"].Str? then [o["text"].s] else []) +
      (if "item" in o then ExtractText(o["item"]) else []) +
      (if "turn" in o then ExtractText(o["turn"]) else []) +
      (if "content" in o then ExtractText(o["content"]) else []) +
      (if "parts" in o then ExtractText(o["parts"]) else [])
    case _ => []
  }

  function ExtractTexts(items: seq<Json>): seq<string>
    decreases items, 0
  {
    if items == [] then [] else ExtractText(items[0]) + ExtractTexts(items[1..])
  }

  /** The turn id after the response to `turn/start`; `None` where the source raises AttributeError. */
  function TurnIdFromResult(message: Object, turnId: Json): Option<Json> {
    if !EqualsInt(Get(message, "id"), 3) || "result" !in message then Some(turnId)
    else if !message["result"].Obj? then None
    else
      var turn := GetOr(message["result"].fields, "turn", Obj(map[]));
      Some(if turn.Obj? then GetOr(turn.fields, "id", turnId) else turnId)
  }

  predicate IsTurnCompleted(message: Object) {
    Get(message, "method") == Str("turn/completed")
  }

  /** The turn that `turn/completed` carries. */
  function TurnOf(message: Object): Json {
    var params := GetOr(message, "params", Obj(map[]));
    if params.Obj? then GetOr(params.fields, "turn", Obj(map[])) else Obj(map[])
  }

  /** The turn state after `turn/completed`. */
  function CompleteTurn(t: Turn, message: Object): Turn {
    var turn := TurnOf(message);
    if !turn.Obj? then t else
    var texts := ExtractText(turn);
    var output :=
      if t.board != [] then Last(t.board).text
      else if texts != [] then Last(texts)
      else t.finalOutput;
    t.(turnId := GetOr(turn.fields, "id", t.turnId), finalOutput := output)
  }

  /** The main loop, from `turn/start` to `turn/completed`. */
  function Converse(s: Session, t: Turn): (Result<Turn, ProtocolError>, Session)
    decreases |s.unread|
  {
    var (r, next) := Absorb(s);
    if r.Err? then (Err(r.error), next) else
    var heard := t.(board := Hear(t.board, EffectOf(r.value)));
    var turnId := TurnIdFromResult(r.value, heard.turnId);
    if turnId.None? then (Err(NotADictionary), next) else
    var named := heard.(turnId := turnId.value);
    if IsTurnCompleted(r.value) then (Ok(CompleteTurn(named, r.value)), next) else Converse(next, named)
  }

  /** `thread_response.get("result", {}).get("thread", {}).get("id")` */
  function ThreadId(response: Object): Result<string, ProtocolError> {
    var result := GetOr(response, "result", Obj(map[]));
    if !result.Obj? then Err(NotADictionary) else
    var thread := GetOr(result.fields, "thread", Obj(map[]));
    if !thread.Obj? then Err(NotADictionary) else
    var id := Get(thread.fields, "id");
    if id.Str? && id.s != "" then Ok(id.s) else Err(ThreadIdMissing)
  }

  function Start(inbox: seq<Timed>): Session {
    Session(inbox, [], [], [], [], EMPTY_LEDGER)
  }

  /** Everything up to and including the sending of `turn/start`. */
  function Handshake(config: Config, prompt: string, inbox: seq<Timed>): (Result<string, ProtocolError>, Session) {
    var (initialized, s1) := Await(Send(Start(inbox), INITIALIZE), 1);
    if initialized.Err? then (Err(initialized.error), s1) else
    var (response, s2) := Await(Send(Send(s1, INITIALIZED), ThreadStart(config)), 2);
    if response.Err? then (Err(response.error), s2) else
    var threadId := ThreadId(response.value);
    if threadId.Err? then (threadId, s2) else
    (threadId, Send(s2, TurnStart(config, threadId.value, prompt)))
  }

  const NEW_TURN := Turn([], Str(""), "")

  /** `CodexAppServer.run`, as a value: its result and everything it left behind. */
  function RunOf(config: Config, prompt: string, inbox: seq<Timed>): (Result<AppServerRun, ProtocolError>, Session) {
    var (threadId, s) := Handshake(config, prompt, inbox);
    if threadId.Err? then (Err(threadId.error), s) else
    var (turn, end) := Converse(s, NEW_TURN);
    if turn.Err? then (Err(turn.error), end) else
    (Ok(AppServerRun(end.events, end.usage, turn.value.finalOutput, end.serverRequests, threadId.value, turn.value.turnId)), end)
  }

  // ---------------------------------------------------------------- the client

  class Connection {
    const ledger: UsageLedger
    var unread: seq<Timed>
    var events: seq<Timed>
    var serverRequests: seq<Object>
    var usage: seq<UsageMark>
    var sent: seq<Object>

    function State(): Session
      reads this, ledger
    {
      Session(unread, events, serverRequests, usage, sent, ledger.State())
    }

    constructor (inbox: seq<Timed>)
      ensures fresh(ledger)
      ensures State() == Start(inbox)
    {
      ledger := new UsageLedger();
      unread, events, serverRequests, usage, sent := inbox, [], [], [], [];
    }

    method Write(message: Object)
      modifies this`sent
      ensures State() == Send(old(State()), message)
    {
      sent := sent + [message];
    }

    /** Read one message, append it to the events and feed it to the ledger. */
    method Read() returns (r: Result<Object, ProtocolError>)
      modifies this, ledger
      ensures (r, State()) == Account(old(State()))
    {
      if unread == [] {
        return Err(StreamEnded);
      }
      var head := unread[0];
      unread := unread[1..];
      events := events + [head];
      var accepted := AcceptNotification(ledger, head.message);
      if accepted.Err? {
        return Err(BadUsage(accepted.error));
      }
      if accepted.value.Some? {
        usage := usage + [UsageMark(accepted.value.value, head.at, |events| - 1)];
      }
      return Ok(head.message);
    }

    method Answer(message: Object)
      modifies this`serverRequests, this`sent
      ensures State() == Refuse(old(State()), message)
    {
      if "id" in message && Get(message, "method").Str? {
        serverRequests := serverRequests + [message];
        sent := sent + [Refusal(message["id"])];
      }
    }

    method AwaitResponse(id: int) returns (r: Result<Object, ProtocolError>)
      modifies this, ledger
      ensures (r, State()) == Await(old(State()), id)
    {
      while true
        invariant Await(State(), id) == Await(old(State()), id)
        decreases |unread|
      {
        ghost var before := State();
        var message := Read();
        if message.Err? {
          return message;
        }
        Answer(message.value);
        assert (message, State()) == Absorb(before);
        if EqualsInt(Get(message.value, "id"), id) {
          if "error" in message.value {
            return Err(ErrorResponse(message.value["error"]));
          }
          return message;
        }
      }
    }

    method AwaitTurn() returns (r: Result<Turn, ProtocolError>)
      modifies this, ledger
      ensures (r, State()) == Converse(old(State()), NEW_TURN)
    {
      var turn := NEW_TURN;
      while true
        invariant Converse(State(), turn) == Converse(old(State()), NEW_TURN)
        decreases |unread|
      {
        ghost var before := State();
        var message := Read();
        if message.Err? {
          return Err(message.error);
        }
        turn := turn.(board := Hear(turn.board, EffectOf(message.value)));
        Answer(message.value);
        assert (message, State()) == Absorb(before);
        var turnId := TurnIdFromResult(message.value, turn.turnId);
        if turnId.None? {
          return Err(NotADictionary);
        }
        turn := turn.(turnId := turnId.value);
        if IsTurnCompleted(message.value) {
          return Ok(CompleteTurn(turn, message.value));
        }
      }
    }
  }

  /** `CodexAppServer.run` */
  method Run(config: Config, prompt: string, inbox: seq<Timed>) returns (r: Result<AppServerRun, ProtocolError>, final: Session)
    ensures (r, final) == RunOf(config, prompt, inbox)
  {
    var c := new Connection(inbox);
    c.Write(INITIALIZE);
    var initialized := c.AwaitResponse(1);
    if initialized.Err? {
      return Err(initialized.error), c.State();
    }
    c.Write(INITIALIZED);
    c.Write(ThreadStart(config));
    var response := c.AwaitResponse(2);
    if response.Err? {
      return Err(response.error), c.State();
    }
    var threadId := ThreadId(response.value);
    if threadId.Err? {
      return Err(threadId.error), c.State();
    }
    c.Write(TurnStart(config, threadId.value, prompt));
    var turn := c.AwaitTurn();
    if turn.Err? {
      return Err(turn.error), c.State();
    }
    return Ok(AppServerRun(c.events, c.usage, turn.value.finalOutput, c.serverRequests, threadId.value, turn.value.turnId)), c.State();
  }
}

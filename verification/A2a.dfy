/** The A2A adapter: messages, agent cards, new tasks and task updates to envelopes, and envelopes back to messages. */
module A2a {
  import opened Wrappers
  import opened Text
  import opened Envelopes
  import opened Adapters

  /** A decoded message; a missing id is null and missing parameters are empty. */
  datatype A2aMessage = A2aMessage(rpcMethod: string, id: Value, params: Fields)

  const NAME := "a2a"
  const PROTOCOL := "a2a-json"
  const MESSAGE_SEND := "message/send"
  const AGENT_CARD := "agent/card"
  const TASK_CREATE := "task/create"
  const TASK_UPDATE := "task/update"
  const METHODS := [MESSAGE_SEND, AGENT_CARD, TASK_CREATE, TASK_UPDATE]

  function Validate(msg: A2aMessage): Option<AdapterError> {
    if Blank(msg.rpcMethod) then Some(MissingField("method"))
    else if Trim(msg.rpcMethod) in METHODS then None
    else Some(Unsupported)
  }

  function AsString(lib: Library, v: Value): string {
    match v
    case Null => ""
    case Str(s) => s
    case _ => lib.sprint(v)
  }

  /** The trimmed text of a parameter; empty when there is none. */
  function Param(lib: Library, params: Fields, key: string): string {
    if key in params then Trim(AsString(lib, params[key])) else ""
  }

  // ---------------------------------------------------------------------------------------------
  // Messages
  // ---------------------------------------------------------------------------------------------

  /** The trimmed text of a message part, if it is a text part. */
  function PartText(lib: Library, part: Value): string {
    if part.Object? && Param(lib, part.fields, "type") == "text" then Param(lib, part.fields, "text") else ""
  }

  /** The texts of the parts that have one. */
  function Texts(lib: Library, parts: seq<Value>): seq<string> {
    if parts == [] then []
    else
      var text := PartText(lib, parts[|parts| - 1]);
      Texts(lib, parts[..|parts| - 1]) + (if text == "" then [] else [text])
  }

  function MessageText(lib: Library, message: Fields): string {
    var texts := if "parts" in message && message["parts"].List? then Texts(lib, message["parts"].items) else [];
    if texts == [] then Param(lib, message, "text") else Join(texts, "\n")
  }

  method ExtractMessageText(lib: Library, message: Fields) returns (text: string)
    ensures text == MessageText(lib, message)
  {
    hide PartText, Join;
    if "parts" !in message || !message["parts"].List? {
      return Param(lib, message, "text");
    }
    var parts := message["parts"].items;
    var texts := [];
    for i := 0 to |parts|
      invariant texts == Texts(lib, parts[..i])
    {
      assert parts[..i + 1][..i] == parts[..i];
      var part := PartText(lib, parts[i]);
      if part != "" {
        texts := texts + [part];
      }
    }
    assert parts[..|parts|] == parts;
    if texts == [] {
      return Param(lib, message, "text");
    }
    return Join(texts, "\n");
  }

  /** The capabilities that have a name, in lower case. */
  function Named(lib: Library, items: seq<Value>): seq<string> {
    if items == [] then []
    else
      var name := Trim(AsString(lib, items[|items| - 1]));
      Named(lib, items[..|items| - 1]) + (if name == "" then [] else [lib.lower(name)])
  }

  function Capabilities(lib: Library, params: Fields): seq<string> {
    if "capabilities" in params && params["capabilities"].List? then Named(lib, params["capabilities"].items) else []
  }

  method ExtractCapabilities(lib: Library, params: Fields) returns (capabilities: seq<string>)
    ensures capabilities == Capabilities(lib, params)
  {
    hide Trim, AsString;
    capabilities := [];
    if "capabilities" in params && params["capabilities"].List? {
      var items := params["capabilities"].items;
      for i := 0 to |items|
        invariant capabilities == Named(lib, items[..i])
      {
        assert items[..i + 1][..i] == items[..i];
        var name := Trim(AsString(lib, items[i]));
        if name != "" {
          capabilities := capabilities + [lib.lower(name)];
        }
      }
      assert items[..|items|] == items;
    }
  }

  const DATA_TOKENS := [
    "data", "fetch", "retrieve", "lookup", "search", "find", "query", "list", "show", "read", "load", "pull", "report"]

  predicate Contains(text: string, token: string) {
    token <= text || (text != "" && Contains(text[1..], token))
  }

  /** A request that speaks of data asks for it; any other asks for an action. */
  function IntentTag(lib: Library, text: string, capabilities: seq<string>): string {
    var intent := lib.lower(text + " " + Join(capabilities, " "));
    if exists i :: 0 <= i < |DATA_TOKENS| && Contains(intent, DATA_TOKENS[i]) then TAG_REQUEST_DATA
    else TAG_REQUEST_ACTION
  }

  method HasAnyToken(text: string, tokens: seq<string>) returns (found: bool)
    ensures found <==> exists i :: 0 <= i < |tokens| && Contains(text, tokens[i])
  {
    for i := 0 to |tokens|
      invariant forall j :: 0 <= j < i ==> !Contains(text, tokens[j])
    {
      if Contains(text, tokens[i]) {
        return true;
      }
    }
    return false;
  }

  function Renamed(message: Fields, key: string, payload: Fields, name: string): Fields {
    if key in message then payload[name := message[key]] else payload
  }

  function MessagePayload(lib: Library, message: Fields): Fields {
    var payload := map["message" := Str(MessageText(lib, message)), "raw_message" := Object(message)];
    Renamed(message, "contextId",
      Renamed(message, "taskId",
        Renamed(message, "messageId", payload, "message_id"), "task_id"), "context_id")
  }

  /** What a message says: a request tag, and the payload as content. */
  function MessageReading(lib: Library, params: Fields): Result<(Fields, string), AdapterError> {
    if "message" !in params || !params["message"].Object? then Failure(MissingField("message"))
    else
      var message := params["message"].fields;
      Success((map[META_TAG := Str(IntentTag(lib, MessageText(lib, message), Capabilities(lib, params)))],
               lib.marshal(MessagePayload(lib, message))))
  }

  method ReadMessage(lib: Library, params: Fields) returns (error: Option<AdapterError>, tag: string, payload: Fields)
    ensures match MessageReading(lib, params)
            case Failure(e) => error == Some(e)
            case Success((fields, content)) =>
              error.None? && fields == map[META_TAG := Str(tag)] && content == lib.marshal(payload)
  {
    hide MessageText, Capabilities, Join, Contains;
    error, tag, payload := None, "", map[];
    if "message" !in params || !params["message"].Object? {
      error := Some(MissingField("message"));
      return;
    }
    var message := params["message"].fields;
    var text := ExtractMessageText(lib, message);
    var capabilities := ExtractCapabilities(lib, params);
    var intent := lib.lower(text + " " + Join(capabilities, " "));
    tag := TAG_REQUEST_ACTION;
    var data := HasAnyToken(intent, DATA_TOKENS);
    if data {
      tag := TAG_REQUEST_DATA;
    }
    payload := map["message" := Str(text), "raw_message" := Object(message)];
    if "messageId" in message {
      payload := payload["message_id" := message["messageId"]];
    }
    if "taskId" in message {
      payload := payload["task_id" := message["taskId"]];
    }
    if "contextId" in message {
      payload := payload["context_id" := message["contextId"]];
    }
  }

  // ---------------------------------------------------------------------------------------------
  // Agent cards and new tasks
  // ---------------------------------------------------------------------------------------------

  function CardReading(lib: Library, params: Fields): Result<(Fields, string), AdapterError> {
    var name, capabilities := Param(lib, params, "name"), Capabilities(lib, params);
    if name == "" then Failure(MissingField("name"))
    else
      var payload :=
        map["name" := Str(name), "description" := Str(Param(lib, params, "description")),
            "capabilities" :=
              List(seq(|capabilities|, i requires 0 <= i < |capabilities| => Str(capabilities[i]))),
            "endpoint" := Str(Param(lib, params, "endpoint"))];
      Success((map[META_TAG := Str(TAG_CONTEXT_PROVIDE)], lib.marshal(payload)))
  }

  function NewTaskReading(lib: Library, params: Fields): Result<(Fields, string), AdapterError> {
    var taskId, status := Param(lib, params, "taskId"), Param(lib, params, "status");
    if taskId == "" then Failure(MissingField("taskId"))
    else
      var fields := map[META_TAG := Str(TAG_REQUEST_ACTION), META_ACTION := Str("task.create"),
                        META_TASK_ID := Str(taskId)];
      var fields := if status == "" then fields else fields[META_STATUS := Str(status)];
      Success((WithResult(params, fields), lib.marshal(map[])))
  }

  /** The payload of a new task, as the program puts it together. */
  method ReadNewTask(lib: Library, params: Fields) returns (error: Option<AdapterError>, payload: Fields)
    ensures error == if Param(lib, params, "taskId") == "" then Some(MissingField("taskId")) else None
    ensures error.None? ==> payload == NewTaskPayload(lib, params)
  {
    hide Trim, AsString;
    error, payload := None, map[];
    var taskId := Param(lib, params, "taskId");
    if taskId == "" {
      error := Some(MissingField("taskId"));
      return;
    }
    payload := map["action" := Str("task.create"), "task_id" := Str(taskId)];
    var status := Param(lib, params, "status");
    if status != "" {
      payload := payload["status" := Str(status)];
    }
    if "result" in params {
      payload := payload["result" := params["result"]];
    }
  }

  function NewTaskPayload(lib: Library, params: Fields): Fields {
    var payload := map["action" := Str("task.create"), "task_id" := Str(Param(lib, params, "taskId"))];
    var status := Param(lib, params, "status");
    var payload := if status == "" then payload else payload["status" := Str(status)];
    if "result" in params then payload["result" := params["result"]] else payload
  }

  /** Moving the four keys empties the payload of a new task and leaves the metadata that the reading says. */
  lemma NewTaskMovesAway(lib: Library, params: Fields)
    requires NewTaskReading(lib, params).Success?
    ensures var p0 := NewTaskPayload(lib, params);
            var p1 := p0 - {"action"};
            var p2 := p1 - {"task_id"};
            var p3 := p2 - {"status"};
            var m1 := Moved(map[META_TAG := Str(TAG_REQUEST_ACTION)], p0, "action", META_ACTION);
            var m2 := Moved(m1, p1, "task_id", META_TASK_ID);
            var m3 := Moved(m2, p2, "status", META_STATUS);
            && (Moved(m3, p3, "result", META_RESULT), lib.marshal(map[])) == NewTaskReading(lib, params).value
            && p3 - {"result"} == map[]
  {
    hide Param;
    assert NewTaskPayload(lib, params).Keys <= {"action", "task_id", "status", "result"};
  }

  // ---------------------------------------------------------------------------------------------
  // Task updates
  // ---------------------------------------------------------------------------------------------

  /** A field of the result of a failed task, or a default; a field that is there counts, whatever it holds. */
  function FailureField(params: Fields, key: string, default: string): Value {
    if "result" in params && params["result"].Object? && key in params["result"].fields
    then params["result"].fields[key] else Str(default)
  }

  function StatusTag(status: string): Option<string> {
    if status == "completed" then Some(TAG_RESPONSE_SUCCESS)
    else if status == "failed" then Some(TAG_RESPONSE_ERROR)
    else if status == "in_progress" then Some(TAG_PROGRESS_UPDATE)
    else None
  }

  function WithResult(params: Fields, fields: Fields): Fields {
    if "result" in params then fields[META_RESULT := params["result"]] else fields
  }

  /** What a task update says: the system metadata of its envelope. */
  function UpdateReading(lib: Library, params: Fields): Result<Fields, AdapterError> {
    var taskId, status := Param(lib, params, "taskId"), Param(lib, params, "status");
    if taskId == "" then Failure(MissingField("taskId"))
    else if status == "" then Failure(MissingField("status"))
    else
      match StatusTag(status)
      case None => Failure(InvalidField("status"))
      case Some(tag) =>
        var fields := WithResult(params, map[META_TAG := Str(tag), META_TASK_ID := Str(taskId),
                                             META_STATUS := Str(status)]);
        Success(
          if status != "failed" then fields
          else fields[META_MESSAGE := FailureField(params, "message", "task failed")]
                     [META_CODE := FailureField(params, "code", "failed")])
  }

  /** What a message says: the system metadata and the content of its envelope. */
  function Reading(lib: Library, msg: A2aMessage): Result<(Fields, string), AdapterError> {
    if msg.rpcMethod == MESSAGE_SEND then MessageReading(lib, msg.params)
    else if msg.rpcMethod == AGENT_CARD then CardReading(lib, msg.params)
    else if msg.rpcMethod == TASK_CREATE then NewTaskReading(lib, msg.params)
    else if msg.rpcMethod == TASK_UPDATE then
      match UpdateReading(lib, msg.params)
      case Failure(e) => Failure(e)
      case Success(fields) => Success((fields, lib.marshal(map[])))
    else Failure(Unsupported)
  }

  /** The method is checked trimmed but told apart as it is, so a method with spaces around it passes the check and is
      refused afterwards. */
  function Ingest(lib: Library, msg: A2aMessage, arrival: Arrival): Result<Envelope, AdapterError> {
    match Validate(msg)
    case Some(e) => Failure(e)
    case None =>
      match Reading(lib, msg)
      case Failure(e) => Failure(e)
      case Success((fields, content)) =>
        Accept(Made(NAME, PROTOCOL, arrival, AsString(lib, msg.id), fields, content))
  }

  /** The payload of a task update, as the program puts it together. */
  method ReadUpdate(lib: Library, params: Fields)
    returns (error: Option<AdapterError>, tag: string, payload: Fields)
    ensures match UpdateReading(lib, params)
            case Failure(e) => error == Some(e)
            case Success(_) =>
              && error.None? && Some(tag) == StatusTag(Param(lib, params, "status"))
              && payload == PayloadOf(lib, params)
  {
    hide Trim, AsString;
    error, tag, payload := None, "", map[];
    var taskId := Param(lib, params, "taskId");
    if taskId == "" {
      error := Some(MissingField("taskId"));
      return;
    }
    var status := Param(lib, params, "status");
    if status == "" {
      error := Some(MissingField("status"));
      return;
    }
    payload := map["task_id" := Str(taskId), "status" := Str(status)];
    if "result" in params {
      payload := payload["result" := params["result"]];
    }
    if status == "completed" {
      tag := TAG_RESPONSE_SUCCESS;
    } else if status == "failed" {
      if "result" in payload && payload["result"].Object? {
        var result := payload["result"].fields;
        if "message" in result {
          payload := payload["message" := result["message"]];
        }
        if "code" in result {
          payload := payload["code" := result["code"]];
        }
      }
      if "message" !in payload {
        payload := payload["message" := Str("task failed")];
      }
      if "code" !in payload {
        payload := payload["code" := Str("failed")];
      }
      tag := TAG_RESPONSE_ERROR;
    } else if status == "in_progress" {
      tag := TAG_PROGRESS_UPDATE;
    } else {
      error := Some(InvalidField("status"));
    }
  }

  function PayloadOf(lib: Library, params: Fields): Fields {
    var taskId, status := Param(lib, params, "taskId"), Param(lib, params, "status");
    var payload := map["task_id" := Str(taskId), "status" := Str(status)];
    var payload := if "result" in params then payload["result" := params["result"]] else payload;
    if status != "failed" then payload
    else payload["message" := FailureField(params, "message", "task failed")]
                ["code" := FailureField(params, "code", "failed")]
  }

  function Moved(fields: Fields, payload: Fields, key: string, metaKey: string): Fields {
    if key in payload then fields[metaKey := payload[key]] else fields
  }

  method MoveKey(env: Draft, payload: Fields, key: string, metaKey: string) returns (rest: Fields)
    modifies env`metadata
    ensures env.metadata == Moved(old(env.metadata), payload, key, metaKey)
    ensures rest == payload - {key}
  {
    rest := payload;
    if key in payload {
      env.SetSystemMeta(metaKey, payload[key]);
      rest := rest - {key};
    }
  }

  /** Moving the five keys empties the payload and leaves the metadata that the reading says. */
  lemma PayloadMovesAway(lib: Library, params: Fields)
    requires UpdateReading(lib, params).Success?
    ensures var p0 := PayloadOf(lib, params);
            var p1 := p0 - {"task_id"};
            var p2 := p1 - {"status"};
            var p3 := p2 - {"result"};
            var p4 := p3 - {"message"};
            var tag := StatusTag(Param(lib, params, "status")).value;
            var m1 := Moved(map[META_TAG := Str(tag)], p0, "task_id", META_TASK_ID);
            var m2 := Moved(m1, p1, "status", META_STATUS);
            var m3 := Moved(m2, p2, "result", META_RESULT);
            var m4 := Moved(m3, p3, "message", META_MESSAGE);
            && Moved(m4, p4, "code", META_CODE) == UpdateReading(lib, params).value
            && p4 - {"code"} == map[]
  {
    hide Param, FailureField;
    var p0 := PayloadOf(lib, params);
    assert p0.Keys <= {"task_id", "status", "result", "message", "code"};
  }

  /** Ingest as the program runs it. What the payload of a task says moves into the metadata, key by key, until nothing
      is left of it for the content; the payload of a message or a card is the content. */
  method IngestInPlace(lib: Library, msg: A2aMessage, arrival: Arrival) returns (r: Result<Envelope, AdapterError>)
    ensures r == Ingest(lib, msg, arrival)
  {
    hide Trim, AsString, Sender, Recipient, AdapterInfo, IsValidTag;
    hide MessageReading, CardReading, NewTaskReading, UpdateReading, PayloadOf, NewTaskPayload, Moved;
    var invalid := Validate(msg);
    if invalid.Some? {
      return Failure(invalid.value);
    }
    var sourceId := AsString(lib, msg.id);
    var env := new Draft(NAME, arrival);
    if msg.rpcMethod !in METHODS {
      return Failure(Unsupported);
    }
    var error := Fill(lib, msg, env);
    if error.Some? {
      return Failure(error.value);
    }
    env.SetAdapterMetadata(NAME, sourceId, PROTOCOL);
    return Accept(env.Sealed());
  }

  /** The metadata and the content of a fresh envelope, for each method. */
  method Fill(lib: Library, msg: A2aMessage, env: Draft) returns (error: Option<AdapterError>)
    requires msg.rpcMethod in METHODS && env.metadata == map[] && env.content == ""
    modifies env`metadata, env`content
    ensures match Reading(lib, msg)
            case Failure(e) => error == Some(e)
            case Success((fields, content)) => error.None? && env.metadata == fields && env.content == content
  {
    hide Trim, AsString, MessageReading, UpdateReading, PayloadOf, NewTaskPayload, Moved, Capabilities, Param;
    error := None;
    if msg.rpcMethod == MESSAGE_SEND {
      var tag, payload;
      error, tag, payload := ReadMessage(lib, msg.params);
      if error.Some? {
        return;
      }
      env.SetSystemMeta(META_TAG, Str(tag));
      env.content := lib.marshal(payload);
    } else if msg.rpcMethod == AGENT_CARD {
      env.SetSystemMeta(META_TAG, Str(TAG_CONTEXT_PROVIDE));
      var name := Param(lib, msg.params, "name");
      if name == "" {
        return Some(MissingField("name"));
      }
      var capabilities := ExtractCapabilities(lib, msg.params);
      var payload :=
        map["name" := Str(name), "description" := Str(Param(lib, msg.params, "description")),
            "capabilities" :=
              List(seq(|capabilities|, i requires 0 <= i < |capabilities| => Str(capabilities[i]))),
            "endpoint" := Str(Param(lib, msg.params, "endpoint"))];
      env.content := lib.marshal(payload);
    } else if msg.rpcMethod == TASK_CREATE {
      error := FillNewTask(lib, msg.params, env);
    } else {
      error := FillUpdate(lib, msg.params, env);
    }
  }

  method FillNewTask(lib: Library, params: Fields, env: Draft) returns (error: Option<AdapterError>)
    requires env.metadata == map[] && env.content == ""
    modifies env`metadata, env`content
    ensures match NewTaskReading(lib, params)
            case Failure(e) => error == Some(e)
            case Success((fields, content)) => error.None? && env.metadata == fields && env.content == content
  {
    hide NewTaskPayload, Moved, Param;
    env.SetSystemMeta(META_TAG, Str(TAG_REQUEST_ACTION));
    var payload;
    error, payload := ReadNewTask(lib, params);
    if error.Some? {
      return;
    }
    NewTaskMovesAway(lib, params);
    payload := MoveKey(env, payload, "action", META_ACTION);
    payload := MoveKey(env, payload, "task_id", META_TASK_ID);
    payload := MoveKey(env, payload, "status", META_STATUS);
    payload := MoveKey(env, payload, "result", META_RESULT);
    env.content := lib.marshal(payload);
  }

  method FillUpdate(lib: Library, params: Fields, env: Draft) returns (error: Option<AdapterError>)
    requires env.metadata == map[] && env.content == ""
    modifies env`metadata, env`content
    ensures match UpdateReading(lib, params)
            case Failure(e) => error == Some(e)
            case Success(fields) => error.None? && env.metadata == fields && env.content == lib.marshal(map[])
  {
    hide UpdateReading, PayloadOf, Moved, Param;
    var tag, payload;
    error, tag, payload := ReadUpdate(lib, params);
    if error.Some? {
      return;
    }
    env.SetSystemMeta(META_TAG, Str(tag));
    PayloadMovesAway(lib, params);
    payload := MoveKey(env, payload, "task_id", META_TASK_ID);
    payload := MoveKey(env, payload, "status", META_STATUS);
    payload := MoveKey(env, payload, "result", META_RESULT);
    payload := MoveKey(env, payload, "message", META_MESSAGE);
    payload := MoveKey(env, payload, "code", META_CODE);
    env.content := lib.marshal(payload);
  }

  // ---------------------------------------------------------------------------------------------
  // Emit
  // ---------------------------------------------------------------------------------------------

  function TaskId(env: Envelope): string {
    if !Blank(SystemMetaString(env, META_TASK_ID)) then Trim(SystemMetaString(env, META_TASK_ID))
    else if !Blank(SystemMetaString(env, META_REQUEST_ID)) then Trim(SystemMetaString(env, META_REQUEST_ID))
    else env.id
  }

  /** The content as an object; anything else counts as empty. */
  function ContentFields(lib: Library, content: string): Fields {
    if content == "" || lib.parse(content).None? then map[] else lib.parse(content).value
  }

  function OutboundText(lib: Library, env: Envelope): string {
    var content := ContentFields(lib, env.content);
    if !Blank(SystemMetaString(env, META_MESSAGE)) then Trim(SystemMetaString(env, META_MESSAGE))
    else if Param(lib, content, "message") != "" then Param(lib, content, "message")
    else if !Blank(SystemMetaString(env, META_ACTION)) then Trim(SystemMetaString(env, META_ACTION))
    else if env.content != "" then env.content
    else EffectiveTag(env)
  }

  function OutboundMessage(lib: Library, env: Envelope): Fields {
    var part := Object(map["type" := Str("text"), "text" := Str(OutboundText(lib, env))]);
    var message := map["role" := Str("user"), "parts" := List([part]), "messageId" := Str(env.id)];
    var taskId := Trim(SystemMetaString(env, META_TASK_ID));
    var message := if taskId == "" then message else message["taskId" := Str(taskId)];
    var contextId := Param(lib, ContentFields(lib, env.content), "context_id");
    if contextId == "" then message else message["contextId" := Str(contextId)]
  }

  function FailureResult(env: Envelope): Fields {
    var code, message := SystemMeta(env, META_CODE), SystemMetaString(env, META_MESSAGE);
    var result: Fields := if code.Some? then map["code" := code.value] else map[];
    if message == "" then result else result["message" := Str(message)]
  }

  function ProgressResult(lib: Library, env: Envelope): Option<Value> {
    var content := ContentFields(lib, env.content);
    if SystemMeta(env, META_RESULT).Some? then SystemMeta(env, META_RESULT)
    else if content == map[] then None
    else if "progress" in content then Some(content["progress"])
    else Some(Object(content))
  }

  function UpdateMessage(env: Envelope, status: string, result: Option<Value>): A2aMessage {
    var params := map["taskId" := Str(TaskId(env)), "status" := Str(status)];
    A2aMessage(TASK_UPDATE, RequestId(env), if result.Some? then params["result" := result.value] else params)
  }

  function Emit(lib: Library, env: Envelope): Result<A2aMessage, AdapterError> {
    var tag := EffectiveTag(env);
    if HasPrefix(tag, "request.") then
      Success(A2aMessage("message/send", RequestId(env), map["message" := Object(OutboundMessage(lib, env))]))
    else if tag == TAG_RESPONSE_SUCCESS then Success(UpdateMessage(env, "completed", SystemMeta(env, META_RESULT)))
    else if tag == TAG_RESPONSE_ERROR then
      var result := FailureResult(env);
      Success(UpdateMessage(env, "failed", if result == map[] then None else Some(Object(result))))
    else if HasPrefix(tag, "progress.") then Success(UpdateMessage(env, "in_progress", ProgressResult(lib, env)))
    else Failure(UnsupportedTag(tag))
  }

  /** A message as it arrives at the other end of the wire. */
  function Received(msg: A2aMessage): A2aMessage {
    msg.(id := Decoded(msg.id), params := DecodedFields(msg.params))
  }
}

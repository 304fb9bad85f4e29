/**
  What the three adapters take messages to mean: whom an envelope is from and to, which messages are accepted, and what
  their envelopes record, key by key, in the words of the protocols.
 */
module Readings {
  import opened Wrappers
  import opened Text
  import opened Uuids
  import opened Envelopes
  import opened Adapters
  import Mcp
  import Grpc
  import A2a

  // ---------------------------------------------------------------------------------------------
  // From and to
  // ---------------------------------------------------------------------------------------------

  /** The envelope goes to whom the transport names, or else to everybody; it is from the agent of the connection, or else
      from the connection as the adapter knows it. It has the fresh id and the time of arrival, no tag of its own, and
      the adapter's note about itself. */
  predicate CameBy(env: Envelope, arrival: Arrival, adapter: string, protocol: string, sourceId: string) {
    var headers, agent := arrival.meta.headers, Trim(arrival.meta.agentId);
    var connection := Trim(arrival.meta.connectionId);
    && env.to == (if "X-Target-Agent" in headers && Trim(headers["X-Target-Agent"]) != ""
                  then Trim(headers["X-Target-Agent"]) else "broadcast")
    && env.from == (if agent != "" then agent
                    else if connection != "" then adapter + ":" + connection else adapter + ":unknown")
    && env.id == ToString(arrival.id) && env.timestamp == Rfc3339(arrival.now) && env.tag == ""
    && "adapter" in env.metadata
    && env.metadata["adapter"] ==
       Object(map["adapter_name" := Str(adapter), "adapter_version" := Str("1.0.0"), "direction" := Str("inbound"),
                  "source_id" := Str(sourceId), "source_protocol" := Str(protocol)])
  }

  lemma MadeCame(adapter: string, protocol: string, arrival: Arrival, sourceId: string, fields: Fields, content: string)
    ensures CameBy(Made(adapter, protocol, arrival, sourceId, fields, content), arrival, adapter, protocol, sourceId)
  {
    hide Trim, ToString;
    assert ":" + "unknown" == ":unknown";
    assert adapter + ":" + "unknown" == adapter + ":unknown";
  }

  /** Whatever an MCP message says, its envelope is addressed by the transport. */
  lemma McpCameBy(lib: Library, msg: Mcp.RpcMessage, arrival: Arrival)
    requires Mcp.Ingest(lib, msg, arrival).Success?
    ensures CameBy(Mcp.Ingest(lib, msg, arrival).value, arrival, "mcp", "json-rpc", Mcp.SourceId(lib, msg.id))
  {
    hide CameBy, Validate, Made, Mcp.SourceId;
    var (fields, content) := Mcp.Reading(lib, msg).value;
    MadeCame("mcp", "json-rpc", arrival, Mcp.SourceId(lib, msg.id), fields, content);
  }

  lemma GrpcCameBy(msg: Grpc.GrpcMessage, arrival: Arrival)
    requires Grpc.Ingest(msg, arrival).Success?
    ensures CameBy(Grpc.Ingest(msg, arrival).value, arrival, "grpc", "grpc-json", Trim(msg.requestId))
  {
    hide CameBy, Validate, Made, Trim, Blank;
    MadeCame("grpc", "grpc-json", arrival, Trim(msg.requestId), Grpc.Reading(msg).value, "");
  }

  lemma A2aCameBy(lib: Library, msg: A2a.A2aMessage, arrival: Arrival)
    requires A2a.Ingest(lib, msg, arrival).Success?
    ensures CameBy(A2a.Ingest(lib, msg, arrival).value, arrival, "a2a", "a2a-json",
                   if msg.id.Null? then "" else if msg.id.Str? then msg.id.s else lib.sprint(msg.id))
  {
    hide CameBy, Validate, Made, Trim, Blank;
    var (fields, content) := A2a.Reading(lib, msg).value;
    MadeCame("a2a", "a2a-json", arrival, A2a.AsString(lib, msg.id), fields, content);
  }

  // ---------------------------------------------------------------------------------------------
  // Envelopes
  // ---------------------------------------------------------------------------------------------

  /** A message is routed by its sender's own tag; only without one, by the system's. */
  lemma RoutedBy(env: Envelope)
    ensures Trim(env.tag) != "" ==> EffectiveTag(env) == Trim(env.tag)
    ensures Trim(env.tag) == "" && "_tag" in env.metadata && env.metadata["_tag"].Str? ==>
              EffectiveTag(env) == Trim(env.metadata["_tag"].s)
    ensures Trim(env.tag) == "" && ("_tag" !in env.metadata || !env.metadata["_tag"].Str?) ==> EffectiveTag(env) == ""
  {
  }

  /** An envelope is valid exactly when nothing it needs is blank, its time is well formed, and it is routed by tokens of
      lower-case letters, digits and hyphens between single dots. */
  lemma ValidIff(env: Envelope)
    ensures Validate(env).None? <==>
              && Trim(env.id) != "" && Trim(env.from) != "" && Trim(env.to) != "" && env.timestamp.Rfc3339?
              && WellDotted(EffectiveTag(env))
  {
    hide EffectiveTag, IsValidTag, WellDotted, Trim;
    ValidTagIff(EffectiveTag(env));
    NotEmpty();
  }

  lemma KnownTags()
    ensures KNOWN_TAGS ==
            {"request.data", "request.action", "response.success", "response.error", "response.partial",
             "context-provide", "no-response", "progress.update", "progress.stage", "error.recoverable", "error.fatal",
             "system.heartbeat", "system.join", "system.leave"}
  {
  }

  lemma MadeIs(adapter: string, protocol: string, arrival: Arrival, sourceId: string, fields: Fields, content: string,
               tag: string)
    requires adapter in ["mcp", "grpc", "a2a"] && tag in KNOWN_TAGS
    requires "_tag" in fields && fields["_tag"] == Str(tag) && "adapter" !in fields
    ensures var env := Made(adapter, protocol, arrival, sourceId, fields, content);
            && Accept(env) == Success(env) && EffectiveTag(env) == tag
            && env.metadata - {"adapter"} == fields && env.content == content
  {
    hide Accept, EffectiveTag, ToString, Sender, Recipient;
    assert !IsSpace(adapter[0]);
    MadeCarries(adapter, protocol, arrival, sourceId, fields, content, tag);
  }

  /** Answers and progress note the request they belong to, if it has an id. */
  function Noted(record: Fields, sourceId: string): Fields {
    if sourceId == "" then record else record["_request_id" := Str(sourceId)]
  }

  // ---------------------------------------------------------------------------------------------
  // MCP
  // ---------------------------------------------------------------------------------------------

  /** A JSON-RPC 2.0 message that the adapter can read: an error or a result with an id, a notification, or a tool call by
      name. */
  predicate McpReadable(msg: Mcp.RpcMessage) {
    && msg.jsonrpc == "2.0"
    && if msg.error.Some? || !msg.result.Null? then !msg.id.Null?
       else if msg.id.Null? then Trim(msg.rpcMethod) != ""
       else
         && msg.rpcMethod == "tools/call" && "name" in msg.params && msg.params["name"].Str?
         && Trim(msg.params["name"].s) != ""
  }

  /** What its envelope records. An error goes before a result, and a result before a call. */
  function McpRecord(lib: Library, msg: Mcp.RpcMessage): Fields {
    var sourceId := Mcp.SourceId(lib, msg.id);
    if msg.error.Some? then
      Noted(map["_tag" := Str("response.error"), "_code" := Str(Itoa(msg.error.value.code)),
                "_message" := Str(msg.error.value.message)], sourceId)
    else if !msg.result.Null? then Noted(map["_tag" := Str("response.success")], sourceId)["_result" := msg.result]
    else if msg.id.Null? then map["_tag" := Str("context-provide")]
    else
      map["_tag" := Str("request.action"),
          "_action" := if "name" in msg.params then msg.params["name"] else Null,
          "_args" := if "arguments" in msg.params then msg.params["arguments"] else Object(map[])]
  }

  lemma McpReads(lib: Library, msg: Mcp.RpcMessage, arrival: Arrival)
    ensures var r := Mcp.Ingest(lib, msg, arrival);
            && (r.Success? <==> McpReadable(msg))
            && (r.Success? ==>
                  && r.value.metadata - {"adapter"} == McpRecord(lib, msg)
                  && r.value.content ==
                     if msg.error.Some? || !msg.result.Null? || !msg.id.Null? then ""
                     else if msg.params == map[] then Trim(msg.rpcMethod)
                     else Trim(msg.rpcMethod) + " " + lib.marshal(msg.params))
  {
    hide Made, Accept, Mcp.SourceId, Itoa, Trim;
    VersionIsVisible();
    CallIsVisible();
    var sourceId := Mcp.SourceId(lib, msg.id);
    if Mcp.Validate(msg).None? && Mcp.Reading(lib, msg).Success? {
      var (fields, content) := Mcp.Reading(lib, msg).value;
      assert fields == McpRecord(lib, msg);
      MadeIs("mcp", "json-rpc", arrival, sourceId, fields, content, fields["_tag"].s);
    }
  }

  lemma VersionIsVisible()
    ensures Trim("2.0") != ""
  {
    VisibleIsNotBlank("2.0", 0);
  }

  lemma CallIsVisible()
    ensures Trim("tools/call") != ""
  {
    VisibleIsNotBlank("tools/call", 0);
  }

  /** The text of a request id: a text itself, a whole number its decimal notation, and none nothing. */
  lemma McpIds(lib: Library, i: Int64, s: string)
    ensures Mcp.SourceId(lib, Null) == "" && Mcp.SourceId(lib, Str(s)) == s
    ensures Mcp.SourceId(lib, Float(i as real)) == Itoa(i)
  {
    hide Itoa;
  }

  // ---------------------------------------------------------------------------------------------
  // gRPC
  // ---------------------------------------------------------------------------------------------

  /** A unary message has a service and a method or neither; it is a call when it has no status, and otherwise an answer.
      A stream message names its stream. */
  predicate GrpcReadable(msg: Grpc.GrpcMessage) {
    var kind, status, called := Trim(msg.kind), Trim(msg.status), Trim(msg.service) != "";
    if kind == "unary" then
      (called <==> Trim(msg.rpcMethod) != "") && (status == "OK" || status == "ERROR" || (status == "" && called))
    else kind == "stream" && Trim(msg.streamId) != ""
  }

  /** What its envelope records; an absent body counts as an empty one. */
  function GrpcRecord(msg: Grpc.GrpcMessage): Fields {
    var sourceId, status := Trim(msg.requestId), Trim(msg.status);
    var body := if msg.body.Some? then msg.body.value else map[];
    if Trim(msg.kind) == "stream" then
      var update := map["_tag" := Str("progress.update"), "_update" := Object(body)];
      var update := if "progress" !in body then update
                    else match body["progress"]
                         case Float(x) => update["_percentage" := Float(x)]
                         case Int(i) => update["_percentage" := Float(i as real)]
                         case _ => update;
      Noted(update, sourceId)["_stream_id" := Str(msg.streamId)]
    else if status == "OK" then Noted(map["_tag" := Str("response.success"), "_result" := Object(body)], sourceId)
    else if status == "ERROR" then
      Noted(map["_tag" := Str("response.error"), "_code" := Int(msg.code), "_message" := Str(msg.message)], sourceId)
    else
      map["_tag" := Str("request.action"), "_action" := Str(Trim(msg.service) + "/" + Trim(msg.rpcMethod)),
          "_args" := Object(body)]
  }

  lemma GrpcReads(msg: Grpc.GrpcMessage, arrival: Arrival)
    ensures var r := Grpc.Ingest(msg, arrival);
            && (r.Success? <==> GrpcReadable(msg))
            && (r.Success? ==> r.value.metadata - {"adapter"} == GrpcRecord(msg) && r.value.content == "")
  {
    hide Made, Accept, Trim;
    if Grpc.Validate(msg).None? && Grpc.Reading(msg).Success? {
      var fields := Grpc.Reading(msg).value;
      GrpcRecords(msg);
      hide GrpcRecord;
      MadeIs("grpc", "grpc-json", arrival, Trim(msg.requestId), fields, "", fields["_tag"].s);
    }
  }

  lemma GrpcRecords(msg: Grpc.GrpcMessage)
    requires Grpc.Validate(msg).None? && Grpc.Reading(msg).Success?
    ensures var fields := Grpc.Reading(msg).value;
            && fields == GrpcRecord(msg) && "adapter" !in fields
            && "_tag" in fields && fields["_tag"].Str? && fields["_tag"].s in KNOWN_TAGS
  {
    hide Trim;
  }

  // ---------------------------------------------------------------------------------------------
  // A2A
  // ---------------------------------------------------------------------------------------------

  /** The text of a parameter, trimmed: a text itself, nothing for null or an absent one, and otherwise what the library
      prints. */
  function ParamText(lib: Library, params: Fields, key: string): string {
    if key !in params || params[key].Null? then Trim("")
    else if params[key].Str? then Trim(params[key].s)
    else Trim(lib.sprint(params[key]))
  }

  /** The method is one of four, without white space around it, and has the parameters it needs. */
  predicate A2aReadable(lib: Library, msg: A2a.A2aMessage) {
    if msg.rpcMethod == "message/send" then "message" in msg.params && msg.params["message"].Object?
    else if msg.rpcMethod == "agent/card" then ParamText(lib, msg.params, "name") != ""
    else if msg.rpcMethod == "task/create" then ParamText(lib, msg.params, "taskId") != ""
    else
      && msg.rpcMethod == "task/update" && ParamText(lib, msg.params, "taskId") != ""
      && ParamText(lib, msg.params, "status") in ["completed", "failed", "in_progress"]
  }

  /** The words that make a request one for data. */
  const DATA_WORDS := [
    "data", "fetch", "retrieve", "lookup", "search", "find", "query", "list", "show", "read", "load", "pull", "report"]

  predicate Occurs(text: string, word: string) {
    exists i :: 0 <= i <= |text| && word <= text[i..]
  }

  /** A message speaks of data when one of the words occurs in its text or its capabilities, in lower case. */
  predicate SpeaksOfData(lib: Library, text: string, capabilities: seq<string>) {
    exists k :: 0 <= k < |DATA_WORDS| && Occurs(lib.lower(text + " " + Join(capabilities, " ")), DATA_WORDS[k])
  }

  lemma {:induction false} ContainsIffOccurs(text: string, word: string)
    ensures A2a.Contains(text, word) <==> Occurs(text, word)
  {
    if text != "" {
      ContainsIffOccurs(text[1..], word);
      forall i | 0 <= i <= |text[1..]| ensures text[1..][i..] == text[i + 1..] {
      }
      if i :| 1 <= i <= |text| && word <= text[i..] {
        assert word <= text[1..][i - 1..];
      }
      if i :| 0 <= i <= |text[1..]| && word <= text[1..][i..] {
        assert word <= text[i + 1..];
      }
    }
    assert text[0..] == text;
  }

  /** A request is for data exactly when it speaks of data, and otherwise for an action. */
  lemma IntentIff(lib: Library, text: string, capabilities: seq<string>)
    ensures A2a.IntentTag(lib, text, capabilities)
         == if SpeaksOfData(lib, text, capabilities) then "request.data" else "request.action"
  {
    hide A2a.Contains, Occurs, Join;
    var intent := lib.lower(text + " " + Join(capabilities, " "));
    forall k | 0 <= k < |DATA_WORDS| ensures A2a.Contains(intent, DATA_WORDS[k]) <==> Occurs(intent, DATA_WORDS[k]) {
      ContainsIffOccurs(intent, DATA_WORDS[k]);
    }
  }

  /** A part that is a text has its trimmed text; any other has none. */
  function PartTexts(lib: Library, part: Value): seq<string> {
    if part.Object? && ParamText(lib, part.fields, "type") == "text" && ParamText(lib, part.fields, "text") != ""
    then [ParamText(lib, part.fields, "text")] else []
  }

  function CapabilityNames(lib: Library, item: Value): seq<string> {
    var name := Trim(if item.Null? then "" else if item.Str? then item.s else lib.sprint(item));
    if name == "" then [] else [lib.lower(name)]
  }

  lemma ParamIsParamText(lib: Library, params: Fields, key: string)
    ensures A2a.Param(lib, params, key) == ParamText(lib, params, key)
  {
    hide Trim;
    assert Trim("") == "" by {
      TrimUnchanged("");
    }
  }

  lemma OneText(lib: Library, part: Value)
    ensures A2a.Texts(lib, [part]) == PartTexts(lib, part)
  {
    hide A2a.Param, ParamText;
    if part.Object? {
      ParamIsParamText(lib, part.fields, "type");
      ParamIsParamText(lib, part.fields, "text");
    }
    assert [part][..0] == [] && A2a.Texts(lib, []) == [];
  }

  /** The texts of a message are those of its parts, in their order. */
  lemma {:induction false} TextsInOrder(lib: Library, parts: seq<Value>, part: Value, more: seq<Value>)
    ensures A2a.Texts(lib, []) == []
    ensures A2a.Texts(lib, parts + [part] + more) == A2a.Texts(lib, parts) + PartTexts(lib, part) + A2a.Texts(lib, more)
  {
    hide A2a.PartText, PartTexts;
    if more == [] {
      OneText(lib, part);
      assert (parts + [part] + more)[..|parts|] == parts && [part][..0] == [];
    } else {
      var n := |more| - 1;
      TextsInOrder(lib, parts, part, more[..n]);
      assert (parts + [part] + more)[..|parts| + 1 + n] == parts + [part] + more[..n];
    }
  }

  lemma OneName(lib: Library, item: Value)
    ensures A2a.Named(lib, [item]) == CapabilityNames(lib, item)
  {
    hide Trim;
    assert [item][..0] == [] && A2a.Named(lib, []) == [];
  }

  lemma {:induction false} CapabilitiesInOrder(lib: Library, items: seq<Value>, item: Value, more: seq<Value>)
    ensures A2a.Named(lib, []) == []
    ensures A2a.Named(lib, items + [item] + more)
         == A2a.Named(lib, items) + CapabilityNames(lib, item) + A2a.Named(lib, more)
  {
    hide A2a.AsString, Trim, CapabilityNames;
    if more == [] {
      OneName(lib, item);
      assert (items + [item] + more)[..|items|] == items && [item][..0] == [];
    } else {
      var n := |more| - 1;
      CapabilitiesInOrder(lib, items, item, more[..n]);
      assert (items + [item] + more)[..|items| + 1 + n] == items + [item] + more[..n];
    }
  }

  /** The text of a message: its parts' texts, a line each, or else its own. */
  function MessageTextOf(lib: Library, message: Fields): string {
    var texts := if "parts" in message && message["parts"].List? then A2a.Texts(lib, message["parts"].items) else [];
    if texts == [] then ParamText(lib, message, "text") else Join(texts, "\n")
  }

  function Copied(record: Fields, fields: Fields, key: string, name: string): Fields {
    if key in fields then record[name := fields[key]] else record
  }

  function CapabilitiesOf(lib: Library, params: Fields): seq<string> {
    if "capabilities" in params && params["capabilities"].List? then A2a.Named(lib, params["capabilities"].items) else []
  }

  /** What the envelope of a message records, and what its content is the JSON text of. */
  function MessageRecord(lib: Library, params: Fields): (Fields, Fields) {
    var message := if "message" in params && params["message"].Object? then params["message"].fields else map[];
    var text := MessageTextOf(lib, message);
    var tag := if SpeaksOfData(lib, text, CapabilitiesOf(lib, params)) then "request.data" else "request.action";
    (map["_tag" := Str(tag)],
     Copied(Copied(Copied(map["message" := Str(text), "raw_message" := Object(message)],
                          message, "messageId", "message_id"), message, "taskId", "task_id"),
            message, "contextId", "context_id"))
  }

  function CardRecord(lib: Library, params: Fields): (Fields, Fields) {
    var capabilities := CapabilitiesOf(lib, params);
    (map["_tag" := Str("context-provide")],
     map["name" := Str(ParamText(lib, params, "name")), "description" := Str(ParamText(lib, params, "description")),
         "capabilities" := List(seq(|capabilities|, i requires 0 <= i < |capabilities| => Str(capabilities[i]))),
         "endpoint" := Str(ParamText(lib, params, "endpoint"))])
  }

  /** A new task is a request to create it. Its status and result are recorded if it has them. */
  function NewTaskRecord(lib: Library, params: Fields): Fields {
    var record := map["_tag" := Str("request.action"), "_action" := Str("task.create"),
                      "_task_id" := Str(ParamText(lib, params, "taskId"))];
    var status := ParamText(lib, params, "status");
    Copied(if status == "" then record else record["_status" := Str(status)], params, "result", "_result")
  }

  /** An update is tagged by its status. A failure says its result's message and code, or else that the task failed. */
  function UpdateRecord(lib: Library, params: Fields): Fields {
    var status := ParamText(lib, params, "status");
    var tag := if status == "completed" then "response.success"
               else if status == "failed" then "response.error" else "progress.update";
    var record := map["_tag" := Str(tag), "_task_id" := Str(ParamText(lib, params, "taskId")), "_status" := Str(status)];
    var record := Copied(record, params, "result", "_result");
    var result := if "result" in params && params["result"].Object? then params["result"].fields else map[];
    if status != "failed" then record
    else record["_message" := if "message" in result then result["message"] else Str("task failed")]
               ["_code" := if "code" in result then result["code"] else Str("failed")]
  }

  function A2aRecord(lib: Library, msg: A2a.A2aMessage): (Fields, Fields) {
    if msg.rpcMethod == "message/send" then MessageRecord(lib, msg.params)
    else if msg.rpcMethod == "agent/card" then CardRecord(lib, msg.params)
    else if msg.rpcMethod == "task/create" then (NewTaskRecord(lib, msg.params), map[])
    else (UpdateRecord(lib, msg.params), map[])
  }

  lemma A2aReads(lib: Library, msg: A2a.A2aMessage, arrival: Arrival)
    ensures var r := A2a.Ingest(lib, msg, arrival);
            && (r.Success? <==> A2aReadable(lib, msg))
            && (r.Success? ==>
                  && r.value.metadata - {"adapter"} == A2aRecord(lib, msg).0
                  && r.value.content == lib.marshal(A2aRecord(lib, msg).1))
  {
    hide Made, Accept, Trim, A2aReadable, A2aRecord, A2a.Reading;
    A2aMethods(lib, msg);
    A2aRecords(lib, msg);
    if A2a.Validate(msg).None? && A2a.Reading(lib, msg).Success? {
      var (fields, content) := A2a.Reading(lib, msg).value;
      MadeIs("a2a", "a2a-json", arrival, A2a.AsString(lib, msg.id), fields, content, fields["_tag"].s);
    }
  }

  lemma A2aMethods(lib: Library, msg: A2a.A2aMessage)
    ensures A2aReadable(lib, msg) ==> A2a.Validate(msg).None?
  {
    hide Trim, ParamText;
    if msg.rpcMethod in ["message/send", "agent/card", "task/create", "task/update"] {
      assert !IsSpace(msg.rpcMethod[0]) && !IsSpace(msg.rpcMethod[|msg.rpcMethod| - 1]);
      TrimUnchanged(msg.rpcMethod);
    }
  }

  /** Metadata and content as recorded, ready for the adapter's note. */
  ghost predicate Recorded(lib: Library, reading: (Fields, string), record: (Fields, Fields)) {
    && reading.0 == record.0 && reading.1 == lib.marshal(record.1)
    && "adapter" !in reading.0 && "_tag" in reading.0 && reading.0["_tag"].Str? && reading.0["_tag"].s in KNOWN_TAGS
  }

  lemma MessageRecords(lib: Library, params: Fields)
    ensures var r := A2a.MessageReading(lib, params);
            && (r.Success? <==> "message" in params && params["message"].Object?)
            && (r.Success? ==> Recorded(lib, r.value, MessageRecord(lib, params)))
  {
    hide ParamText, A2a.Param, Join, A2a.Texts, A2a.Named, SpeaksOfData, A2a.IntentTag;
    if "message" in params && params["message"].Object? {
      var message := params["message"].fields;
      ParamIsParamText(lib, message, "text");
      IntentIff(lib, MessageTextOf(lib, message), CapabilitiesOf(lib, params));
      assert A2a.MessagePayload(lib, message) == MessageRecord(lib, params).1;
    }
  }

  lemma CardRecords(lib: Library, params: Fields)
    ensures var r := A2a.CardReading(lib, params);
            && (r.Success? <==> ParamText(lib, params, "name") != "")
            && (r.Success? ==> Recorded(lib, r.value, CardRecord(lib, params)))
  {
    hide ParamText, A2a.Param, A2a.Named;
    ParamIsParamText(lib, params, "name");
    ParamIsParamText(lib, params, "description");
    ParamIsParamText(lib, params, "endpoint");
    assert CapabilitiesOf(lib, params) == A2a.Capabilities(lib, params);
  }

  lemma NewTaskRecords(lib: Library, params: Fields)
    ensures var r := A2a.NewTaskReading(lib, params);
            && (r.Success? <==> ParamText(lib, params, "taskId") != "")
            && (r.Success? ==> Recorded(lib, r.value, (NewTaskRecord(lib, params), map[])))
  {
    hide ParamText, A2a.Param;
    ParamIsParamText(lib, params, "taskId");
    ParamIsParamText(lib, params, "status");
    var r := A2a.NewTaskReading(lib, params);
    if r.Success? {
      assert r.value.0 == NewTaskRecord(lib, params);
    }
  }

  lemma UpdateRecords(lib: Library, params: Fields)
    ensures var r := A2a.UpdateReading(lib, params);
            && (r.Success? <==> ParamText(lib, params, "taskId") != ""
                                && ParamText(lib, params, "status") in ["completed", "failed", "in_progress"])
            && (r.Success? ==> Recorded(lib, (r.value, lib.marshal(map[])), (UpdateRecord(lib, params), map[])))
  {
    hide ParamText, A2a.Param;
    ParamIsParamText(lib, params, "taskId");
    ParamIsParamText(lib, params, "status");
    var r := A2a.UpdateReading(lib, params);
    if r.Success? {
      assert r.value == UpdateRecord(lib, params);
    }
  }

  lemma A2aRecords(lib: Library, msg: A2a.A2aMessage)
    ensures A2a.Reading(lib, msg).Success? <==> A2aReadable(lib, msg)
    ensures A2a.Reading(lib, msg).Success? ==> Recorded(lib, A2a.Reading(lib, msg).value, A2aRecord(lib, msg))
  {
    hide ParamText, A2a.MessageReading, A2a.CardReading, A2a.NewTaskReading, A2a.UpdateReading, Recorded;
    hide MessageRecord, CardRecord, NewTaskRecord, UpdateRecord;
    MessageRecords(lib, msg.params);
    CardRecords(lib, msg.params);
    NewTaskRecords(lib, msg.params);
    UpdateRecords(lib, msg.params);
  }
}

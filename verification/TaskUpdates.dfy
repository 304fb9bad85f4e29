/** What the A2A adapter makes of a task update that it takes in and sends out again. */
module TaskUpdates {
  import opened Wrappers
  import opened Text
  import opened Uuids
  import opened Envelopes
  import opened Adapters
  import opened A2a

  /** In through Ingest, out through Emit, and over the wire. */
  function Pass(lib: Library, msg: A2aMessage, arrival: Arrival): Result<A2aMessage, AdapterError>
  {
    match Ingest(lib, msg, arrival)
    case Failure(e) => Failure(e)
    case Success(env) =>
      match Emit(lib, env)
      case Failure(e) => Failure(e)
      case Success(out) => Success(Received(out))
  }

  /** The JSON text of the empty object is read as the empty object. */
  predicate EmptyComesBack(lib: Library) {
    lib.parse(lib.marshal(map[])) == Some(map[])
  }

  function Status(lib: Library, params: Fields): string {
    Param(lib, params, "status")
  }

  /** The code and the message that a failed update comes out with; a message that is no text, or empty, is dropped. */
  function FailureOf(params: Fields): Fields {
    var code, message := FailureField(params, "code", "failed"), FailureField(params, "message", "task failed");
    var result := map["code" := Decoded(code)];
    if message.Str? && message.s != "" then result["message" := message] else result
  }

  /** The parameters of an update in normal form. */
  function Normal(lib: Library, params: Fields): Fields {
    var normal := map["taskId" := Str(Param(lib, params, "taskId")), "status" := Str(Status(lib, params))];
    if Status(lib, params) == "failed" then normal["result" := Object(FailureOf(params))]
    else if "result" in params then normal["result" := Decoded(params["result"])]
    else normal
  }

  predicate IsUpdate(lib: Library, msg: A2aMessage) {
    && msg.rpcMethod == TASK_UPDATE
    && Param(lib, msg.params, "taskId") != ""
    && Status(lib, msg.params) in ["completed", "failed", "in_progress"]
  }

  // ---------------------------------------------------------------------------------------------
  // One pass
  // ---------------------------------------------------------------------------------------------

  lemma UpdateIsAMethod()
    ensures !Blank(TASK_UPDATE) && Trim(TASK_UPDATE) == TASK_UPDATE
  {
  }

  /** Which updates can be read, and under which tag. */
  lemma UpdateIsRead(lib: Library, msg: A2aMessage)
    requires msg.rpcMethod == TASK_UPDATE
    ensures UpdateReading(lib, msg.params).Success? <==> IsUpdate(lib, msg)
    ensures IsUpdate(lib, msg) ==>
              var fields, tag := UpdateReading(lib, msg.params).value, StatusTag(Status(lib, msg.params));
              && tag.Some? && tag.value in KNOWN_TAGS
              && META_TAG in fields && fields[META_TAG] == Str(tag.value)
  {
    hide Param, FailureField;
  }

  /** Which messages are accepted, and what their envelopes carry. */
  lemma IngestedUpdate(lib: Library, msg: A2aMessage, arrival: Arrival)
    requires msg.rpcMethod == TASK_UPDATE
    ensures Ingest(lib, msg, arrival).Success? <==> IsUpdate(lib, msg)
    ensures IsUpdate(lib, msg) ==>
              var env := Ingest(lib, msg, arrival).value;
              var fields := UpdateReading(lib, msg.params).value;
              && UpdateReading(lib, msg.params).Success?
              && EffectiveTag(env) == StatusTag(Status(lib, msg.params)).value
              && env.content == lib.marshal(map[]) && env.id == ToString(arrival.id)
              && forall key :: key != META_ADAPTER ==>
                   SystemMeta(env, key) == if key in fields then Some(fields[key]) else None
  {
    hide Trim, Blank, Accept, EffectiveTag, Sender, Recipient, AdapterInfo, AsString, UpdateReading, IsUpdate, StatusTag;
    UpdateIsAMethod();
    UpdateIsRead(lib, msg);
    if IsUpdate(lib, msg) {
      var fields := UpdateReading(lib, msg.params).value;
      MadeCarries(NAME, PROTOCOL, arrival, AsString(lib, msg.id), fields, lib.marshal(map[]),
                  StatusTag(Status(lib, msg.params)).value);
    }
  }

  lemma StatusIsTold(lib: Library, env: Envelope, status: string)
    requires StatusTag(status).Some? && EffectiveTag(env) == StatusTag(status).value
    ensures status == "completed" ==>
              Emit(lib, env) == Success(UpdateMessage(env, status, SystemMeta(env, META_RESULT)))
    ensures status == "failed" && FailureResult(env) != map[] ==>
              Emit(lib, env) == Success(UpdateMessage(env, status, Some(Object(FailureResult(env)))))
    ensures status == "in_progress" ==>
              Emit(lib, env) == Success(UpdateMessage(env, status, ProgressResult(lib, env)))
  {
    hide EffectiveTag, UpdateMessage, FailureResult, ProgressResult, OutboundMessage;
    TagPrefixes();
  }

  lemma TagPrefixes()
    ensures !HasPrefix(TAG_RESPONSE_SUCCESS, "request.") && !HasPrefix(TAG_RESPONSE_ERROR, "request.")
    ensures !HasPrefix(TAG_PROGRESS_UPDATE, "request.") && HasPrefix(TAG_PROGRESS_UPDATE, "progress.")
  {
    assert TAG_RESPONSE_SUCCESS[2] != "request."[2] && TAG_RESPONSE_ERROR[2] != "request."[2];
    assert TAG_PROGRESS_UPDATE[0] != "request."[0];
    assert TAG_PROGRESS_UPDATE[..9] == "progress.";
  }

  /** What can be looked up in a reading. */
  lemma ReadFields(lib: Library, params: Fields)
    requires UpdateReading(lib, params).Success?
    ensures var fields := UpdateReading(lib, params).value;
            && META_REQUEST_ID !in fields
            && META_TASK_ID in fields && fields[META_TASK_ID] == Str(Param(lib, params, "taskId"))
            && (META_RESULT in fields <==> "result" in params)
            && ("result" in params ==> fields[META_RESULT] == params["result"])
            && (Status(lib, params) == "failed" ==>
                  && META_CODE in fields && fields[META_CODE] == FailureField(params, "code", "failed")
                  && META_MESSAGE in fields && fields[META_MESSAGE] == FailureField(params, "message", "task failed"))
  {
    hide Param, FailureField;
  }

  lemma EmptyContentSaysNothing(lib: Library, env: Envelope)
    requires env.content == lib.marshal(map[]) && EmptyComesBack(lib)
    ensures ProgressResult(lib, env) == SystemMeta(env, META_RESULT)
  {
  }

  lemma SentUpdate(env: Envelope, taskId: string, status: string, result: Option<Value>)
    requires taskId != "" && Trim(taskId) == taskId && SystemMeta(env, META_TASK_ID) == Some(Str(taskId))
    requires SystemMeta(env, META_REQUEST_ID) == None
    ensures var params := map["taskId" := Str(taskId), "status" := Str(status)];
            Received(UpdateMessage(env, status, result)) ==
            A2aMessage(TASK_UPDATE, Str(env.id),
                       if result.Some? then params["result" := Decoded(result.value)] else params)
  {
    hide Trim;
  }

  lemma ParamIsTrimmed(lib: Library, params: Fields, key: string)
    ensures Trim(Param(lib, params, key)) == Param(lib, params, key)
  {
    TrimUnchanged("");
    if key in params {
      TrimIdempotent(AsString(lib, params[key]));
    }
  }

  /** The failure as the envelope carries it, and over the wire. */
  lemma SentFailure(env: Envelope, params: Fields)
    requires SystemMeta(env, META_CODE) == Some(FailureField(params, "code", "failed"))
    requires SystemMeta(env, META_MESSAGE) == Some(FailureField(params, "message", "task failed"))
    ensures FailureResult(env) != map[] && Decoded(Object(FailureResult(env))) == Object(FailureOf(params))
  {
    hide FailureField;
    assert "code" in FailureResult(env);
  }

  /** An accepted update comes out in normal form, under the id of the envelope it was in. */
  lemma PassNormalizes(lib: Library, msg: A2aMessage, arrival: Arrival)
    requires msg.rpcMethod == TASK_UPDATE && EmptyComesBack(lib)
    ensures Pass(lib, msg, arrival).Success? <==> IsUpdate(lib, msg)
    ensures IsUpdate(lib, msg) ==>
              Pass(lib, msg, arrival)
              == Success(A2aMessage(TASK_UPDATE, Str(ToString(arrival.id)), Normal(lib, msg.params)))
  {
    hide Ingest, Emit, Received, UpdateMessage, EffectiveTag, FailureResult, FailureOf, FailureField, Param, Trim;
    hide UpdateReading, ProgressResult, EmptyComesBack;
    IngestedUpdate(lib, msg, arrival);
    if IsUpdate(lib, msg) {
      ReadFields(lib, msg.params);
      var env := Ingest(lib, msg, arrival).value;
      var taskId, status := Param(lib, msg.params, "taskId"), Status(lib, msg.params);
      ParamIsTrimmed(lib, msg.params, "taskId");
      StatusIsTold(lib, env, status);
      if status == "failed" {
        SentFailure(env, msg.params);
        SentUpdate(env, taskId, status, Some(Object(FailureResult(env))));
      } else {
        var result := if "result" in msg.params then Some(msg.params["result"]) else None;
        EmptyContentSaysNothing(lib, env);
        assert SystemMeta(env, META_RESULT) == result;
        SentUpdate(env, taskId, status, result);
      }
    }
  }

  /** An accepted update keeps its task id and status; unless it failed, it also keeps its result, or has none. */
  lemma PassKeepsUpdate(lib: Library, msg: A2aMessage, arrival: Arrival)
    requires EmptyComesBack(lib) && IsUpdate(lib, msg)
    ensures Pass(lib, msg, arrival).Success?
    ensures var params := Pass(lib, msg, arrival).value.params;
            && Param(lib, params, "taskId") == Param(lib, msg.params, "taskId")
            && Status(lib, params) == Status(lib, msg.params)
            && (Status(lib, msg.params) != "failed" ==>
                  if "result" in msg.params then "result" in params && params["result"] == Decoded(msg.params["result"])
                  else "result" !in params)
  {
    hide Pass, Trim;
    PassNormalizes(lib, msg, arrival);
    ParamIsTrimmed(lib, msg.params, "taskId");
    ParamIsTrimmed(lib, msg.params, "status");
  }

  // ---------------------------------------------------------------------------------------------
  // More passes
  // ---------------------------------------------------------------------------------------------

  /** A failed update whose result has a message that is no text, or empty. */
  predicate MessageIsLost(lib: Library, params: Fields) {
    && Status(lib, params) == "failed"
    && "result" in params && params["result"].Object? && "message" in params["result"].fields
    && (!params["result"].fields["message"].Str? || params["result"].fields["message"].s == "")
  }

  lemma NormalKeepsTask(lib: Library, params: Fields)
    ensures Param(lib, Normal(lib, params), "taskId") == Param(lib, params, "taskId")
    ensures Status(lib, Normal(lib, params)) == Status(lib, params)
  {
    hide Trim, FailureOf;
    ParamIsTrimmed(lib, params, "taskId");
    ParamIsTrimmed(lib, params, "status");
  }

  /** A failure comes out of a second pass as it came out of the first, unless its message was lost; then it has gained
      the default message. */
  lemma FailureTwice(lib: Library, params: Fields)
    requires Status(lib, params) == "failed"
    ensures if MessageIsLost(lib, params) then
              && "message" !in FailureOf(params)
              && FailureOf(Normal(lib, params)) == FailureOf(params)["message" := Str("task failed")]
            else FailureOf(Normal(lib, params)) == FailureOf(params)
    ensures !MessageIsLost(lib, Normal(lib, params))
  {
    hide Param, Decoded;
    var code, message := FailureField(params, "code", "failed"), FailureField(params, "message", "task failed");
    DecodedText("failed");
    DecodedTwice(code);
    NormalKeepsTask(lib, params);
    var normal := Normal(lib, params);
    assert normal["result"] == Object(FailureOf(params));
    assert FailureField(normal, "code", "failed") == Decoded(code);
    if message.Str? && message.s != "" {
      assert FailureField(normal, "message", "task failed") == message;
    } else {
      assert FailureField(normal, "message", "task failed") == Str("task failed");
    }
  }

  lemma DecodedText(s: string)
    ensures Decoded(Str(s)) == Str(s)
  {
  }

  /** A second pass changes nothing exactly when the first one lost no message. */
  lemma NormalTwiceIff(lib: Library, params: Fields)
    ensures Normal(lib, Normal(lib, params)) == Normal(lib, params) <==> !MessageIsLost(lib, params)
  {
    hide Param, Decoded, FailureOf;
    NormalKeepsTask(lib, params);
    if Status(lib, params) == "failed" {
      FailureTwice(lib, params);
      var once, twice := Normal(lib, params), Normal(lib, Normal(lib, params));
      assert once["result"] == Object(FailureOf(params)) && twice["result"] == Object(FailureOf(once));
    } else if "result" in params {
      DecodedTwice(params["result"]);
    }
  }

  /** Passing an update twice is the same as passing it once, but for the id that the second envelope gives it, exactly
      when it is not a failed one whose message is there but is no text, or empty. */
  lemma TwiceIsOnceIff(lib: Library, msg: A2aMessage, first: Arrival, second: Arrival)
    requires EmptyComesBack(lib) && IsUpdate(lib, msg)
    ensures Pass(lib, msg, first).Success?
    ensures var once := Pass(lib, msg, first).value;
            && once.rpcMethod == TASK_UPDATE && Pass(lib, once, second).Success?
            && (Pass(lib, once, second).value == once.(id := Str(ToString(second.id)))
                <==> !MessageIsLost(lib, msg.params))
  {
    hide Pass, Normal, Param, MessageIsLost;
    UpdateIsAMethod();
    PassNormalizes(lib, msg, first);
    NormalKeepsTask(lib, msg.params);
    PassNormalizes(lib, Pass(lib, msg, first).value, second);
    NormalTwiceIff(lib, msg.params);
  }

  /** After two passes every update has settled: a third changes nothing but the id. */
  lemma ThirdPassChangesNothing(lib: Library, msg: A2aMessage, first: Arrival, second: Arrival, third: Arrival)
    requires EmptyComesBack(lib) && IsUpdate(lib, msg)
    ensures Pass(lib, msg, first).Success? && Pass(lib, msg, first).value.rpcMethod == TASK_UPDATE
    ensures Pass(lib, Pass(lib, msg, first).value, second).Success?
    ensures var twice := Pass(lib, Pass(lib, msg, first).value, second).value;
            twice.rpcMethod == TASK_UPDATE
            && Pass(lib, twice, third) == Success(twice.(id := Str(ToString(third.id))))
  {
    hide Pass, Normal, Param;
    UpdateIsAMethod();
    TwiceIsOnceIff(lib, msg, first, second);
    PassNormalizes(lib, msg, first);
    NormalKeepsTask(lib, msg.params);
    var once := Pass(lib, msg, first).value;
    PassNormalizes(lib, once, second);
    if Status(lib, msg.params) == "failed" {
      FailureTwice(lib, msg.params);
    }
    TwiceIsOnceIff(lib, once, second, third);
  }

  /** A failed update with this result, under the id of an envelope. */
  function FailedUpdate(taskId: string, id: Uuid, result: Fields): A2aMessage {
    A2aMessage(TASK_UPDATE, Str(ToString(id)),
               map["taskId" := Str(taskId), "status" := Str("failed"), "result" := Object(result)])
  }

  /** A lost message: the first pass drops it, and the second one says "task failed" in its place. */
  lemma LostMessageIsReplaced(lib: Library, msg: A2aMessage, first: Arrival, second: Arrival)
    requires EmptyComesBack(lib) && IsUpdate(lib, msg) && MessageIsLost(lib, msg.params)
    ensures var taskId, failure := Param(lib, msg.params, "taskId"), FailureOf(msg.params);
            var once := FailedUpdate(taskId, first.id, failure);
            && "message" !in failure
            && Pass(lib, msg, first) == Success(once)
            && Pass(lib, once, second)
               == Success(FailedUpdate(taskId, second.id, failure["message" := Str("task failed")]))
  {
    hide Pass, Param, FailureOf;
    PassNormalizes(lib, msg, first);
    NormalKeepsTask(lib, msg.params);
    PassNormalizes(lib, Pass(lib, msg, first).value, second);
    FailureTwice(lib, msg.params);
  }

  /** Such a message exists: a failed task whose result has an empty message. */
  lemma MessagesAreLost(lib: Library) returns (msg: A2aMessage)
    ensures IsUpdate(lib, msg) && MessageIsLost(lib, msg.params)
  {
    var result := Object(map["message" := Str("")]);
    msg := A2aMessage(TASK_UPDATE, Null, map["taskId" := Str("t"), "status" := Str("failed"), "result" := result]);
    TrimUnchanged("t");
    TrimUnchanged("failed");
    hide Trim;
    assert Param(lib, msg.params, "taskId") == "t" && Status(lib, msg.params) == "failed";
  }
}

/** What the A2A adapter makes of a request that it sends out as a message and takes in again, any number of times. */
module Requests {
  import opened Wrappers
  import opened Text
  import opened Envelopes
  import opened Adapters
  import opened A2a

  /** Text, and lists and objects of nothing but text: what messages are made of. */
  predicate Textual(v: Value) {
    match v
    case Str(_) => true
    case List(items) => forall i :: 0 <= i < |items| ==> Textual(items[i])
    case Object(fields) => forall k :: k in fields ==> Textual(fields[k])
    case _ => false
  }

  predicate TextualFields(fields: Fields) {
    forall k :: k in fields ==> Textual(fields[k])
  }

  /** The JSON text of an object of text is never empty, and is read back as that object. */
  ghost predicate JsonIsReadBack(lib: Library) {
    forall fields: Fields :: TextualFields(fields) ==>
      lib.marshal(fields) != "" && lib.parse(lib.marshal(fields)) == Some(fields)
  }

  /** Out through Emit, over the wire, and in through Ingest. */
  function Cross(lib: Library, env: Envelope, arrival: Arrival): Result<Envelope, AdapterError> {
    match Emit(lib, env)
    case Failure(e) => Failure(e)
    case Success(msg) => Ingest(lib, Received(msg), arrival)
  }

  function Travel(lib: Library, env: Envelope, arrivals: seq<Arrival>): Result<Envelope, AdapterError> {
    if arrivals == [] then Success(env)
    else
      match Travel(lib, env, arrivals[..|arrivals| - 1])
      case Failure(e) => Failure(e)
      case Success(env') => Cross(lib, env', arrivals[|arrivals| - 1])
  }

  predicate IsRequest(env: Envelope) {
    HasPrefix(EffectiveTag(env), "request.")
  }

  /** The context a request belongs to, by its content; empty when there is none. */
  function Context(lib: Library, env: Envelope): string {
    Param(lib, ContentFields(lib, env.content), "context_id")
  }

  function TaskOf(env: Envelope): string {
    Trim(SystemMetaString(env, META_TASK_ID))
  }

  // ---------------------------------------------------------------------------------------------
  // One pass
  // ---------------------------------------------------------------------------------------------

  /** The one part of an outbound message, as it arrives. */
  function TextPart(text: string): Value {
    Object(map["type" := Str("text"), "text" := Str(text)])
  }

  lemma PartArrives(text: string)
    ensures Decoded(List([TextPart(text)])) == List([TextPart(text)])
  {
    assert Decoded(TextPart(text)) == TextPart(text);
  }

  lemma TextOfPart(lib: Library, text: string)
    ensures Texts(lib, [TextPart(text)]) == if Trim(text) == "" then [] else [Trim(text)]
  {
    TrimUnchanged("text");
    hide Trim;
    var part := TextPart(text);
    assert PartText(lib, part) == Trim(text);
    assert [part][..0] == [];
    assert Texts(lib, []) == [];
  }

  /** What is in an outbound message when it arrives. */
  lemma MessageArrives(lib: Library, env: Envelope)
    ensures var message := DecodedFields(OutboundMessage(lib, env));
            && "parts" in message && message["parts"] == List([TextPart(OutboundText(lib, env))])
            && "text" !in message
            && "messageId" in message && message["messageId"] == Str(env.id)
            && ("taskId" in message <==> TaskOf(env) != "")
            && ("contextId" in message <==> Context(lib, env) != "")
            && (Context(lib, env) != "" ==> message["contextId"] == Str(Context(lib, env)))
  {
    hide Trim, Param, OutboundText, ContentFields;
    PartArrives(OutboundText(lib, env));
  }

  lemma TextArrives(lib: Library, env: Envelope)
    ensures MessageText(lib, DecodedFields(OutboundMessage(lib, env))) == Trim(OutboundText(lib, env))
  {
    hide OutboundMessage, OutboundText, Texts, Trim;
    MessageArrives(lib, env);
    TextOfPart(lib, OutboundText(lib, env));
  }

  /** The payload of a request, as the content of its envelope is read. */
  lemma PayloadIsRead(lib: Library, message: Fields)
    ensures var payload := DecodedFields(MessagePayload(lib, message));
            && "message" in payload && payload["message"] == Str(MessageText(lib, message))
            && ("context_id" in payload <==> "contextId" in message)
            && ("contextId" in message ==> payload["context_id"] == Decoded(message["contextId"]))
  {
    hide MessageText;
  }

  lemma IntentIsKnown(lib: Library, text: string)
    ensures IntentTag(lib, text, []) in KNOWN_TAGS && HasPrefix(IntentTag(lib, text, []), "request.")
  {
    hide Contains;
    assert TAG_REQUEST_DATA[..8] == "request." && TAG_REQUEST_ACTION[..8] == "request.";
  }

  lemma RequestIsSent(lib: Library, env: Envelope)
    requires IsRequest(env)
    ensures Emit(lib, env).Success?
    ensures var msg := Received(Emit(lib, env).value);
            && msg.rpcMethod == MESSAGE_SEND && A2a.Validate(msg) == None
            && msg.params == map["message" := Object(DecodedFields(OutboundMessage(lib, env)))]
  {
    hide EffectiveTag, OutboundMessage;
    VisibleIsNotBlank(MESSAGE_SEND, 0);
    DecodedObject(OutboundMessage(lib, env));
    TrimUnchanged(MESSAGE_SEND);
  }

  lemma RequestIsRead(lib: Library, msg: A2aMessage, message: Fields)
    requires msg.rpcMethod == MESSAGE_SEND && msg.params == map["message" := Object(message)]
    ensures Reading(lib, msg) ==
            Success((map[META_TAG := Str(IntentTag(lib, MessageText(lib, message), []))],
                     lib.marshal(MessagePayload(lib, message))))
  {
    hide MessageText, MessagePayload, IntentTag;
    assert "capabilities" !in msg.params && msg.params["message"] == Object(message);
  }

  /** A request arrives as one: its tag follows from its trimmed text alone, and its content is the payload made of the
      message. Nothing but the tag and the adapter's note is in its metadata, so its task id is gone from there. */
  lemma RequestArrives(lib: Library, env: Envelope, arrival: Arrival)
    requires IsRequest(env)
    ensures Cross(lib, env, arrival).Success?
    ensures var env', text := Cross(lib, env, arrival).value, Trim(OutboundText(lib, env));
            && EffectiveTag(env') == IntentTag(lib, text, []) && IsRequest(env')
            && env'.content == lib.marshal(MessagePayload(lib, DecodedFields(OutboundMessage(lib, env))))
            && env'.metadata.Keys == {META_TAG, META_ADAPTER}
  {
    hide Emit, Received, OutboundMessage, OutboundText, MessagePayload, MessageText, IntentTag, Trim;
    hide EffectiveTag, Accept, AsString, Sender, Recipient, Reading, A2a.Validate;
    RequestIsSent(lib, env);
    var msg := Received(Emit(lib, env).value);
    var message := DecodedFields(OutboundMessage(lib, env));
    RequestIsRead(lib, msg, message);
    TextArrives(lib, env);
    var tag := IntentTag(lib, Trim(OutboundText(lib, env)), []);
    IntentIsKnown(lib, Trim(OutboundText(lib, env)));
    MadeCarries(NAME, PROTOCOL, arrival, AsString(lib, msg.id), map[META_TAG := Str(tag)],
                lib.marshal(MessagePayload(lib, message)), tag);
  }

  /** The wire does not change text. */
  lemma {:induction false} TextIsDelivered(v: Value)
    requires Textual(v)
    ensures Decoded(v) == v
    decreases v
  {
    match v
    case List(items) =>
      forall i | 0 <= i < |items| ensures Decoded(items[i]) == items[i] {
        TextIsDelivered(items[i]);
      }
    case Object(fields) =>
      forall k | k in fields ensures Decoded(fields[k]) == fields[k] {
        TextIsDelivered(fields[k]);
      }
    case _ =>
  }

  lemma TextFieldsAreDelivered(fields: Fields)
    requires TextualFields(fields)
    ensures DecodedFields(fields) == fields
  {
    forall k | k in fields ensures Decoded(fields[k]) == fields[k] {
      TextIsDelivered(fields[k]);
    }
  }

  lemma MessageIsTextual(lib: Library, env: Envelope)
    ensures TextualFields(OutboundMessage(lib, env))
  {
    hide OutboundText, Param, ContentFields, Trim;
    var part := TextPart(OutboundText(lib, env));
    assert Textual(part) && Textual(List([part]));
  }

  lemma PayloadIsTextual(lib: Library, message: Fields)
    requires TextualFields(message)
    ensures TextualFields(MessagePayload(lib, message))
  {
    hide MessageText;
  }

  /** What the arrived request would be sent out with: the old text, trimmed, unless that is blank, and the old context,
      but no task. */
  lemma RequestKeeps(lib: Library, env: Envelope, arrival: Arrival)
    requires IsRequest(env) && JsonIsReadBack(lib)
    ensures Cross(lib, env, arrival).Success?
    ensures var env', text := Cross(lib, env, arrival).value, Trim(OutboundText(lib, env));
            && OutboundText(lib, env') == (if text == "" then env'.content else text)
            && env'.content != ""
            && Context(lib, env') == Context(lib, env)
            && TaskOf(env') == ""
  {
    hide OutboundMessage, MessagePayload, MessageText, IntentTag, Trim, EffectiveTag, IsRequest, Cross, DecodedFields;
    hide TextualFields;
    RequestArrives(lib, env, arrival);
    var env', text := Cross(lib, env, arrival).value, Trim(OutboundText(lib, env));
    var message := DecodedFields(OutboundMessage(lib, env));
    PayloadIsRead(lib, message);
    MessageArrives(lib, env);
    TextArrives(lib, env);
    TrimUnchanged("");
    TrimIdempotent(OutboundText(lib, env));
    ContextIsTrimmed(lib, env);
    MessageIsTextual(lib, env);
    TextFieldsAreDelivered(OutboundMessage(lib, env));
    PayloadIsTextual(lib, message);
    TextFieldsAreDelivered(MessagePayload(lib, message));
    assert ContentFields(lib, env'.content) == MessagePayload(lib, message);
    OutboundTextOf(lib, env');
  }

  lemma ContextIsTrimmed(lib: Library, env: Envelope)
    ensures Trim(Context(lib, env)) == Context(lib, env) && Decoded(Str(Context(lib, env))) == Str(Context(lib, env))
  {
    var content := ContentFields(lib, env.content);
    TrimUnchanged("");
    if "context_id" in content {
      TrimIdempotent(AsString(lib, content["context_id"]));
    }
  }

  /** The text of a request without a message or an action in its metadata. */
  lemma OutboundTextOf(lib: Library, env: Envelope)
    requires META_MESSAGE !in env.metadata && META_ACTION !in env.metadata && env.content != ""
    ensures var message := Param(lib, ContentFields(lib, env.content), "message");
            OutboundText(lib, env) == if message == "" then env.content else message
  {
    hide Param, ContentFields;
  }

  /** The trimmed text survives a second time out exactly when it is not blank; a blank one is replaced by the JSON text
      of the content. */
  lemma TextSurvivesIff(lib: Library, env: Envelope, arrival: Arrival)
    requires IsRequest(env) && JsonIsReadBack(lib)
    ensures Cross(lib, env, arrival).Success?
    ensures OutboundText(lib, Cross(lib, env, arrival).value) == Trim(OutboundText(lib, env))
            <==> !Blank(OutboundText(lib, env))
  {
    hide OutboundText, Cross, Trim, JsonIsReadBack, IsRequest;
    RequestKeeps(lib, env, arrival);
  }

  // ---------------------------------------------------------------------------------------------
  // Any number of passes
  // ---------------------------------------------------------------------------------------------

  /** However often a request with a visible text passes, it stays a request, with that text trimmed, in its context,
      and under the tag of that text; from the first pass on its task is gone. */
  lemma {:induction false} RequestsTravel(lib: Library, env: Envelope, arrivals: seq<Arrival>)
    requires IsRequest(env) && JsonIsReadBack(lib) && !Blank(OutboundText(lib, env)) && arrivals != []
    ensures Travel(lib, env, arrivals).Success?
    ensures var env', text := Travel(lib, env, arrivals).value, Trim(OutboundText(lib, env));
            && IsRequest(env') && EffectiveTag(env') == IntentTag(lib, text, [])
            && OutboundText(lib, env') == text
            && Context(lib, env') == Context(lib, env)
            && TaskOf(env') == ""
  {
    hide OutboundText, Cross, Trim, JsonIsReadBack, IsRequest, IntentTag, EffectiveTag, Context, TaskOf;
    var n := |arrivals| - 1;
    TrimIdempotent(OutboundText(lib, env));
    if n == 0 {
      assert Travel(lib, env, arrivals[..n]) == Success(env);
    } else {
      RequestsTravel(lib, env, arrivals[..n]);
    }
    var before := Travel(lib, env, arrivals[..n]).value;
    RequestArrives(lib, before, arrivals[n]);
    RequestKeeps(lib, before, arrivals[n]);
  }
}

/** Progress messages over gRPC, and notifications, which no adapter sends on. */
module Progress {
  import opened Wrappers
  import opened Text
  import opened Uuids
  import opened Envelopes
  import opened Adapters
  import opened Bridges
  import A2a
  import Mcp
  import Grpc
  import TaskUpdates

  /** Progress on a stream, with an object for an update. */
  predicate IsProgress(env: Envelope, id: Option<string>, stream: string, update: Fields) {
    && Grpc.TagFamily(EffectiveTag(env)) == "progress"
    && AnswersTo(env, id)
    && Carries(env, META_STREAM_ID, Str(stream))
    && Carries(env, META_UPDATE, Object(update))
  }

  /** The percentage that the update itself holds, if it holds a number for it. */
  function Percentage(update: Fields): Option<Value> {
    if Grpc.PROGRESS in update && Grpc.NumericAsFloat(update[Grpc.PROGRESS]).Some?
    then Some(Float(Grpc.NumericAsFloat(update[Grpc.PROGRESS]).value)) else None
  }

  // ---------------------------------------------------------------------------------------------
  // One hop
  // ---------------------------------------------------------------------------------------------

  lemma ProgressFamily()
    ensures Grpc.TagFamily(TAG_PROGRESS_UPDATE) == "progress"
  {
    hide IndexOf;
    assert TAG_PROGRESS_UPDATE[..8] == "progress";
    IndexOfUnique(TAG_PROGRESS_UPDATE, '.', 8);
  }

  /** A tag of the progress family begins like it, so it is none of the tags of requests, responses and context. */
  lemma ProgressBegins(tag: string)
    requires Grpc.TagFamily(tag) == "progress"
    ensures tag != "" && tag[0] == 'p'
  {
    hide IndexOf;
    assert Grpc.TagFamily(tag)[0] == 'p';
  }

  /** The stream id that is sent: the envelope's own when there is none. */
  function StreamSent(env: Envelope, stream: string): string {
    if Blank(stream) then env.id else stream
  }

  lemma ProgressIsSent(lib: Library, env: Envelope, id: Option<string>, stream: string, update: Fields)
    requires IsProgress(env, id, stream, update)
    ensures Grpc.Emit(lib, env)
         == Success(Grpc.NO_MESSAGE.(kind := "stream", requestId := Grpc.OrOwnId(env, META_REQUEST_ID),
                                     streamId := StreamSent(env, stream),
                                     body := Some(Grpc.PercentageAdded(env, update))))
  {
    hide Blank, EffectiveTag, Grpc.TagFamily;
    ProgressBegins(EffectiveTag(env));
  }

  lemma ProgressIsRead(msg: Grpc.GrpcMessage)
    requires msg.kind == "stream" && msg.service == msg.rpcMethod == msg.status == ""
    ensures Grpc.Validate(msg) == if Blank(msg.streamId) then Some(MissingField("stream_id")) else None
    ensures var fields := map[META_TAG := Str(TAG_PROGRESS_UPDATE), META_UPDATE := Object(Grpc.Body(msg))];
            Grpc.Reading(msg) ==
            Success(WithRequestId(Grpc.WithPercentage(fields, Grpc.Body(msg)), Trim(msg.requestId))
                      [META_STREAM_ID := Str(msg.streamId)])
  {
    hide Trim;
    GrpcWords();
  }

  lemma ProgressIsMade(arrival: Arrival, sourceId: string, stream: string, update: Fields)
    ensures var fields := map[META_TAG := Str(TAG_PROGRESS_UPDATE), META_UPDATE := Object(update)];
            var env := Made(Grpc.NAME, Grpc.PROTOCOL, arrival, sourceId,
                            WithRequestId(Grpc.WithPercentage(fields, update), sourceId)[META_STREAM_ID := Str(stream)],
                            "");
            && Accept(env) == Success(env) && env.id == ToString(arrival.id)
            && IsProgress(env, SourceAsId(sourceId), stream, update)
            && SystemMeta(env, META_PERCENTAGE) == Percentage(update)
  {
    hide Accept, EffectiveTag, Grpc.TagFamily, Made, ToString;
    ProgressFamily();
    var fields := map[META_TAG := Str(TAG_PROGRESS_UPDATE), META_UPDATE := Object(update)];
    var all := WithRequestId(Grpc.WithPercentage(fields, update), sourceId)[META_STREAM_ID := Str(stream)];
    MadeCarries(Grpc.NAME, Grpc.PROTOCOL, arrival, sourceId, all, "", TAG_PROGRESS_UPDATE);
    MadeHasFreshId(Grpc.NAME, Grpc.PROTOCOL, arrival, sourceId, all, "");
  }

  /** Progress crosses gRPC under its stream id, or else the envelope's own, unless both are blank. The update arrives
      with the percentage in it, and the percentage in the metadata is the one in the update. */
  lemma ProgressCrosses(lib: Library, env: Envelope, arrival: Arrival, id: Option<string>, stream: string,
                        update: Fields)
    requires IsProgress(env, id, stream, update)
    ensures var r, arrived := Cross(lib, env, Hop(OverGrpc, arrival)), DecodedFields(Grpc.PercentageAdded(env, update));
            if Blank(StreamSent(env, stream)) then r.Failure?
            else
              && r.Success? && r.value.id == ToString(arrival.id)
              && IsProgress(r.value, NextId(OverGrpc, env.id, id), StreamSent(env, stream), arrived)
              && SystemMeta(r.value, META_PERCENTAGE) == Percentage(arrived)
  {
    hide Blank, Trim, EffectiveTag, Accept, Made, WithRequestId, Grpc.OrOwnId, Grpc.Validate, Grpc.Reading, Grpc.Emit;
    hide NextId, ToString, DecodedFields, Grpc.PercentageAdded, Grpc.WithPercentage, Percentage, Grpc.TagFamily;
    GrpcId(env, id);
    ProgressIsSent(lib, env, id, stream, update);
    var sent := Grpc.Emit(lib, env).value;
    EmptyBody(Grpc.Body(sent));
    ProgressIsRead(Grpc.Received(sent));
    ProgressIsMade(arrival, Trim(sent.requestId), sent.streamId, DecodedFields(Grpc.Body(sent)));
  }

  /** MCP has no progress messages. */
  lemma ProgressStaysOffMcp(lib: Library, env: Envelope, arrival: Arrival)
    requires Grpc.TagFamily(EffectiveTag(env)) == "progress"
    ensures Cross(lib, env, Hop(OverMcp, arrival)) == Failure(UnsupportedTag(EffectiveTag(env)))
  {
    hide EffectiveTag, Grpc.TagFamily;
    ProgressBegins(EffectiveTag(env));
  }

  predicate HasPercentage(env: Envelope) {
    META_PERCENTAGE in env.metadata && Grpc.NumericAsFloat(env.metadata[META_PERCENTAGE]).Some?
  }

  /** Progress crosses gRPC with its id, stream and update exactly when the id fits, the stream is not blank, and the
      update already has a progress field or there is no percentage to put into it. */
  lemma ProgressCrossesIff(lib: Library, env: Envelope, arrival: Arrival, id: string, stream: string, update: Fields)
    requires IsProgress(env, Some(id), stream, update)
    ensures var r := Cross(lib, env, Hop(OverGrpc, arrival));
            r.Success? && IsProgress(r.value, Some(id), stream, DecodedFields(update))
            <==> IdFits(OverGrpc, id) && !Blank(stream)
                 && (Grpc.PROGRESS in update || !HasPercentage(env))
  {
    hide Cross, Trim, NextId, EffectiveTag, ToString, Grpc.TagFamily;
    ProgressCrosses(lib, env, arrival, Some(id), stream, update);
    NextIdIff(OverGrpc, env.id, id);
    var added := Grpc.PercentageAdded(env, update);
    assert Grpc.PROGRESS in DecodedFields(added) <==> Grpc.PROGRESS in added;
    assert Grpc.PROGRESS in DecodedFields(update) <==> Grpc.PROGRESS in update;
    assert added != update ==> DecodedFields(added) != DecodedFields(update);
  }

  // ---------------------------------------------------------------------------------------------
  // Any number of hops
  // ---------------------------------------------------------------------------------------------

  predicate AllGrpc(hops: seq<Hop>) {
    forall i :: 0 <= i < |hops| ==> hops[i].protocol.OverGrpc?
  }

  /** The update says its percentage, so nothing is added to it. */
  lemma NothingToAdd(env: Envelope, update: Fields)
    requires SystemMeta(env, META_PERCENTAGE) == Percentage(update)
    ensures Grpc.PercentageAdded(env, update) == update
  {
  }

  /** However far progress travels over gRPC, it keeps its stream, or else the first envelope's own id for one, and the
      update that the first wire delivered, percentage included; its id is what the hops make of it. */
  lemma {:induction false} ProgressTravels(lib: Library, env: Envelope, hops: seq<Hop>, id: Option<string>,
                                           stream: string, update: Fields)
    requires IsProgress(env, id, stream, update) && AllGrpc(hops) && hops != []
    ensures var r, arrived := Travel(lib, env, hops), DecodedFields(Grpc.PercentageAdded(env, update));
            if Blank(StreamSent(env, stream)) then r.Failure?
            else
              && r.Success? && r.value.id == OwnAfter(env.id, hops)
              && IsProgress(r.value, IdAfter(env.id, id, hops), StreamSent(env, stream), arrived)
              && SystemMeta(r.value, META_PERCENTAGE) == Percentage(arrived)
  {
    hide Cross, Blank, NextId, EffectiveTag, ToString, IsProgress, Percentage, Grpc.PercentageAdded, DecodedFields;
    var n := |hops| - 1;
    var arrived := DecodedFields(Grpc.PercentageAdded(env, update));
    assert hops[n] == Hop(OverGrpc, hops[n].arrival);
    if n == 0 {
      assert hops[..n] == [];
      NoHops(env.id, id, lib, env);
      ProgressCrosses(lib, env, hops[n].arrival, id, stream, update);
    } else {
      ProgressTravels(lib, env, hops[..n], id, stream, update);
      var before := Travel(lib, env, hops[..n]);
      if before.Success? {
        NothingToAdd(before.value, arrived);
        DecodedFieldsTwice(Grpc.PercentageAdded(env, update));
        ProgressCrosses(lib, before.value, hops[n].arrival, IdAfter(env.id, id, hops[..n]), StreamSent(env, stream),
                        arrived);
      }
    }
  }

  /** One hop over MCP is one too many. */
  lemma {:induction false} ProgressNeedsGrpc(lib: Library, env: Envelope, hops: seq<Hop>, id: Option<string>,
                                             stream: string, update: Fields)
    requires IsProgress(env, id, stream, update) && !AllGrpc(hops)
    ensures Travel(lib, env, hops).Failure?
  {
    hide Cross, Blank, NextId, EffectiveTag, ToString, Percentage, Grpc.PercentageAdded, DecodedFields, IdAfter, OwnAfter;
    hide AnswersTo, StreamSent, Grpc.TagFamily;
    var n := |hops| - 1;
    var past := hops[..n];
    if AllGrpc(past) {
      assert hops[n].protocol.OverMcp? by {
        forall i | 0 <= i < n ensures past[i] == hops[i] {
        }
      }
      assert hops[n] == Hop(OverMcp, hops[n].arrival);
      if past == [] {
        NoHops(env.id, id, lib, env);
        ProgressStaysOffMcp(lib, env, hops[n].arrival);
      } else {
        ProgressTravels(lib, env, past, id, stream, update);
        if Travel(lib, env, past).Success? {
          ProgressStaysOffMcp(lib, Travel(lib, env, past).value, hops[n].arrival);
        }
      }
    } else {
      ProgressNeedsGrpc(lib, env, past, id, stream, update);
    }
  }

  lemma AllFitOverGrpc(hops: seq<Hop>, id: string)
    requires AllGrpc(hops) && hops != []
    ensures AllFit(hops, id) <==> IdFits(OverGrpc, id)
  {
    hide IdFits;
    assert hops[0].protocol == OverGrpc;
  }

  /** Progress arrives with its id, stream and update exactly when there was no hop, or every hop was over gRPC, the id
      fits it, the stream is not blank, and no percentage had to be put into the update. */
  lemma ProgressTravelsIff(lib: Library, env: Envelope, hops: seq<Hop>, id: string, stream: string, update: Fields)
    requires IsProgress(env, Some(id), stream, update)
    ensures Travel(lib, env, hops).Success?
            && IsProgress(Travel(lib, env, hops).value, Some(id), stream,
                          if hops == [] then update else DecodedFields(update))
            <==> hops == []
                 || (AllGrpc(hops) && IdFits(OverGrpc, id) && !Blank(stream)
                     && (Grpc.PROGRESS in update || !HasPercentage(env)))
  {
    hide Travel, Trim, NextId, EffectiveTag, ToString, Grpc.TagFamily, IdAfter, OwnAfter, AllFit, AllGrpc, IdFits;
    if hops == [] {
      NoHops(env.id, Some(id), lib, env);
    } else if AllGrpc(hops) {
      ProgressTravels(lib, env, hops, Some(id), stream, update);
      IdAfterIff(env.id, id, hops);
      AllFitOverGrpc(hops, id);
      var added := Grpc.PercentageAdded(env, update);
      assert Grpc.PROGRESS in DecodedFields(added) <==> Grpc.PROGRESS in added;
      assert Grpc.PROGRESS in DecodedFields(update) <==> Grpc.PROGRESS in update;
      assert added != update ==> DecodedFields(added) != DecodedFields(update);
    } else {
      ProgressNeedsGrpc(lib, env, hops, Some(id), stream, update);
    }
  }

  // ---------------------------------------------------------------------------------------------
  // The write to a map that was never made
  // ---------------------------------------------------------------------------------------------

  /** Emitting over gRPC ends in the write exactly for progress without an update whose content is the JSON text of an
      object with a field in it. */
  lemma NilMapWriteIff(lib: Library, env: Envelope)
    ensures Grpc.Emit(lib, env) == Failure(NilMapWrite)
            <==> Grpc.TagFamily(EffectiveTag(env)) == "progress" && META_UPDATE !in env.metadata
                 && env.content != "" && lib.parse(env.content).Some? && lib.parse(env.content).value != map[]
  {
    hide EffectiveTag, Grpc.TagFamily, Blank, IndexOf, ParseErrorCode, Grpc.PercentageAdded;
    if Grpc.TagFamily(EffectiveTag(env)) == "progress" {
      ProgressBegins(EffectiveTag(env));
    }
  }

  /** No envelope that an adapter has taken in gets there: gRPC records an update, MCP takes no progress, and A2A leaves
      its progress the empty object for content. */
  lemma NoAdapterLeadsToNilMap(lib: Library, env: Envelope, arrival: Arrival)
    requires TaskUpdates.EmptyComesBack(lib)
    requires || (exists msg :: Grpc.Ingest(msg, arrival) == Success(env))
             || (exists msg :: Mcp.Ingest(lib, msg, arrival) == Success(env))
             || (exists msg :: A2a.Ingest(lib, msg, arrival) == Success(env))
    ensures Grpc.Emit(lib, env) != Failure(NilMapWrite)
  {
    hide Grpc.Ingest, Mcp.Ingest, A2a.Ingest, Grpc.Emit, TaskUpdates.EmptyComesBack;
    if msg :| Grpc.Ingest(msg, arrival) == Success(env) {
      GrpcTakesInUpdates(lib, msg, env, arrival);
    } else if msg :| Mcp.Ingest(lib, msg, arrival) == Success(env) {
      McpTakesInNoProgress(lib, msg, env, arrival);
    } else if msg :| A2a.Ingest(lib, msg, arrival) == Success(env) {
      A2aLeavesEmptyContent(lib, msg, env, arrival);
    }
  }

  lemma OtherFamilies(tag: string)
    requires tag in [TAG_REQUEST_ACTION, TAG_REQUEST_DATA, TAG_RESPONSE_SUCCESS, TAG_RESPONSE_ERROR, TAG_CONTEXT_PROVIDE]
    ensures Grpc.TagFamily(tag) != "progress" && tag in KNOWN_TAGS
  {
    hide IndexOf;
    if Grpc.TagFamily(tag) == "progress" {
      ProgressBegins(tag);
    }
    assert tag[0] == 'r' || tag[0] == 'c';
  }

  lemma GrpcTags(msg: Grpc.GrpcMessage)
    requires Grpc.Reading(msg).Success?
    ensures var fields := Grpc.Reading(msg).value;
            && META_TAG in fields && fields[META_TAG].Str? && fields[META_TAG].s in KNOWN_TAGS
            && (Grpc.TagFamily(fields[META_TAG].s) == "progress" ==> META_UPDATE in fields)
  {
    hide Grpc.TagFamily, Trim;
    OtherFamilies(TAG_REQUEST_ACTION);
    OtherFamilies(TAG_RESPONSE_SUCCESS);
    OtherFamilies(TAG_RESPONSE_ERROR);
  }

  lemma GrpcTakesInUpdates(lib: Library, msg: Grpc.GrpcMessage, env: Envelope, arrival: Arrival)
    requires Grpc.Ingest(msg, arrival) == Success(env)
    ensures Grpc.Emit(lib, env) != Failure(NilMapWrite)
  {
    hide Grpc.Emit, Grpc.TagFamily, Grpc.Validate, Grpc.Reading, EffectiveTag, Trim, Sender, Recipient, AdapterInfo;
    hide Accept;
    NilMapWriteIff(lib, env);
    GrpcTags(msg);
    var fields := Grpc.Reading(msg).value;
    MadeCarries(Grpc.NAME, Grpc.PROTOCOL, arrival, Trim(msg.requestId), fields, "", fields[META_TAG].s);
  }

  lemma McpTakesInNoProgress(lib: Library, msg: Mcp.RpcMessage, env: Envelope, arrival: Arrival)
    requires Mcp.Ingest(lib, msg, arrival) == Success(env)
    ensures Grpc.Emit(lib, env) != Failure(NilMapWrite)
  {
    hide Grpc.Emit, Grpc.TagFamily, EffectiveTag, Blank, Trim, Sender, Recipient, AdapterInfo, Accept, Mcp.SourceId;
    hide Mcp.Summary, Itoa, Made;
    NilMapWriteIff(lib, env);
    var (fields, content) := Mcp.Reading(lib, msg).value;
    var tag := fields[META_TAG].s;
    OtherFamilies(tag);
    MadeCarries(Mcp.NAME, Mcp.PROTOCOL, arrival, Mcp.SourceId(lib, msg.id), fields, content, tag);
  }

  lemma A2aTags(lib: Library, msg: A2a.A2aMessage)
    requires A2a.Reading(lib, msg).Success?
    ensures var (fields, content) := A2a.Reading(lib, msg).value;
            && META_TAG in fields && fields[META_TAG].Str? && fields[META_TAG].s in KNOWN_TAGS
            && (Grpc.TagFamily(fields[META_TAG].s) == "progress" ==> content == lib.marshal(map[]))
  {
    hide Grpc.TagFamily, A2a.Param, A2a.FailureField, A2a.MessageText, A2a.Capabilities, A2a.MessagePayload, A2a.Contains;
    OtherFamilies(TAG_REQUEST_ACTION);
    OtherFamilies(TAG_REQUEST_DATA);
    OtherFamilies(TAG_RESPONSE_SUCCESS);
    OtherFamilies(TAG_RESPONSE_ERROR);
    OtherFamilies(TAG_CONTEXT_PROVIDE);
  }

  lemma A2aLeavesEmptyContent(lib: Library, msg: A2a.A2aMessage, env: Envelope, arrival: Arrival)
    requires TaskUpdates.EmptyComesBack(lib) && A2a.Ingest(lib, msg, arrival) == Success(env)
    ensures Grpc.Emit(lib, env) != Failure(NilMapWrite)
  {
    hide Grpc.Emit, Grpc.TagFamily, A2a.Reading, A2a.Validate, EffectiveTag, Sender, Recipient, AdapterInfo, Accept;
    hide A2a.AsString;
    NilMapWriteIff(lib, env);
    A2aTags(lib, msg);
    var (fields, content) := A2a.Reading(lib, msg).value;
    MadeCarries(A2a.NAME, A2a.PROTOCOL, arrival, A2a.AsString(lib, msg.id), fields, content, fields[META_TAG].s);
  }

  // ---------------------------------------------------------------------------------------------
  // Notifications
  // ---------------------------------------------------------------------------------------------

  /** A message without an id is a notification; its method and parameters become the content. */
  predicate IsNotification(msg: Mcp.RpcMessage) {
    && msg.jsonrpc == "2.0" && !Blank(msg.rpcMethod)
    && msg.id.Null? && msg.result.Null? && msg.error.None?
  }

  /** A notification is taken in as context, and no adapter sends context on. */
  lemma NotificationsStay(lib: Library, msg: Mcp.RpcMessage, arrival: Arrival)
    requires IsNotification(msg)
    ensures Mcp.Ingest(lib, msg, arrival).Success?
    ensures var env := Mcp.Ingest(lib, msg, arrival).value;
            && env.content == Mcp.Summary(lib, msg.rpcMethod, msg.params)
            && Mcp.Emit(env) == Failure(UnsupportedTag(TAG_CONTEXT_PROVIDE))
            && Grpc.Emit(lib, env) == Failure(UnsupportedTag(TAG_CONTEXT_PROVIDE))
            && A2a.Emit(lib, env) == Failure(UnsupportedTag(TAG_CONTEXT_PROVIDE))
  {
    hide Blank, EffectiveTag, Accept, Sender, Recipient, AdapterInfo, Mcp.Summary;
    VersionIsNotBlank();
    MadeCarries(Mcp.NAME, Mcp.PROTOCOL, arrival, "", map[META_TAG := Str(TAG_CONTEXT_PROVIDE)],
                Mcp.Summary(lib, msg.rpcMethod, msg.params), TAG_CONTEXT_PROVIDE);
    ContextStays(lib, Mcp.Ingest(lib, msg, arrival).value);
  }

  lemma ContextStays(lib: Library, env: Envelope)
    requires EffectiveTag(env) == TAG_CONTEXT_PROVIDE
    ensures Mcp.Emit(env) == Failure(UnsupportedTag(TAG_CONTEXT_PROVIDE))
    ensures Grpc.Emit(lib, env) == Failure(UnsupportedTag(TAG_CONTEXT_PROVIDE))
    ensures A2a.Emit(lib, env) == Failure(UnsupportedTag(TAG_CONTEXT_PROVIDE))
  {
    hide EffectiveTag, Grpc.TagFamily;
    assert TAG_CONTEXT_PROVIDE[0] == 'c';
    if Grpc.TagFamily(TAG_CONTEXT_PROVIDE) == "progress" {
      ProgressBegins(TAG_CONTEXT_PROVIDE);
    }
  }
}

/** What the adapters share: transport, metadata, dynamic values on the wire, and the envelope they put together. */
module Adapters {
  import opened Wrappers
  import opened Text
  import opened Uuids
  import opened Envelopes

  type Fields = map<string, Value>

  datatype TransportMeta = TransportMeta(connectionId: string, agentId: string, headers: map<string, string>)

  /** What the language's library makes of values, where the adapters only pass it on: fmt.Sprint, the shortest decimal
      of a float, lower case, and the JSON text of an object and back. */
  datatype Library = Library(
    sprint: Value -> string, formatFloat: real -> string, lower: string -> string,
    marshal: Fields -> string, parse: string -> Option<Fields>)

  datatype AdapterError =
    | MissingField(name: string)
    | InvalidField(name: string)
    | MissingId
    | Unsupported
    | UnsupportedTag(tag: string)
    | MissingMeta(key: string)
    | InvalidMeta(key: string)
    | InvalidEnvelope(error: EnvelopeError)
    | NilMapWrite

  // ---------------------------------------------------------------------------------------------
  // Values on the wire
  // ---------------------------------------------------------------------------------------------

  /** A value after it was written as JSON and read back: every number has become a floating-point number. */
  function Decoded(v: Value): Value {
    match v
    case Int(i) => Float(i as real)
    case List(items) => List(seq(|items|, i requires 0 <= i < |items| => Decoded(items[i])))
    case Object(fields) => Object(map k | k in fields :: Decoded(fields[k]))
    case _ => v
  }

  function DecodedFields(fields: Fields): Fields {
    map k | k in fields :: Decoded(fields[k])
  }

  lemma DecodedObject(fields: Fields)
    ensures Decoded(Object(fields)) == Object(DecodedFields(fields))
  {
  }

  /** Only the first trip over the wire changes a value. */
  lemma {:induction false} DecodedTwice(v: Value)
    ensures Decoded(Decoded(v)) == Decoded(v)
    decreases v
  {
    match v
    case List(items) =>
      forall i | 0 <= i < |items| ensures Decoded(Decoded(items[i])) == Decoded(items[i]) {
        DecodedTwice(items[i]);
      }
    case Object(fields) =>
      forall k | k in fields ensures Decoded(Decoded(fields[k])) == Decoded(fields[k]) {
        DecodedTwice(fields[k]);
      }
    case _ =>
  }

  /** No integer in it, at any depth. */
  predicate WithoutIntegers(v: Value) {
    match v
    case Int(_) => false
    case List(items) => forall i :: 0 <= i < |items| ==> WithoutIntegers(items[i])
    case Object(fields) => forall k :: k in fields ==> WithoutIntegers(fields[k])
    case _ => true
  }

  /** The wire changes integers, into floating-point numbers of the same value, and nothing else. */
  lemma {:induction false} OnlyIntegersChange(v: Value, i: Int64)
    ensures Decoded(v) == v <==> WithoutIntegers(v)
    ensures Decoded(Int(i)) == Float(i as real) && WithoutIntegers(Decoded(v))
    decreases v
  {
    match v
    case List(items) =>
      var decoded := Decoded(v).items;
      forall j | 0 <= j < |items|
        ensures decoded[j] == items[j] <==> WithoutIntegers(items[j])
        ensures WithoutIntegers(decoded[j])
      {
        OnlyIntegersChange(items[j], i);
      }
    case Object(fields) =>
      var decoded := Decoded(v).fields;
      forall k | k in fields
        ensures decoded[k] == fields[k] <==> WithoutIntegers(fields[k])
        ensures WithoutIntegers(decoded[k])
      {
        OnlyIntegersChange(fields[k], i);
      }
    case _ =>
  }

  lemma DecodedFieldsTwice(fields: Fields)
    ensures DecodedFields(DecodedFields(fields)) == DecodedFields(fields)
  {
    forall k | k in fields ensures Decoded(Decoded(fields[k])) == Decoded(fields[k]) {
      DecodedTwice(fields[k]);
    }
  }

  /** Conversion of a float to a machine integer: towards zero; out of range it is the least integer, as on amd64. */
  function Truncated(x: real): Int64 {
    var i := if x < 0.0 then -(-x).Floor else x.Floor;
    if IsInt64(i) then i else INT64_MIN
  }

  /** Error codes are numbers, or text that holds a decimal number. */
  function ParseErrorCode(raw: Value): Option<Int64> {
    match raw
    case Int(i) => Some(i)
    case Float(x) => Some(Truncated(x))
    case Str(s) => Atoi(s)
    case _ => None
  }

  // ---------------------------------------------------------------------------------------------
  // Envelopes under construction
  // ---------------------------------------------------------------------------------------------

  function SystemMeta(env: Envelope, key: string): Option<Value> {
    if key in env.metadata then Some(env.metadata[key]) else None
  }

  function SystemMetaString(env: Envelope, key: string): string {
    if key in env.metadata && env.metadata[key].Str? then env.metadata[key].s else ""
  }

  /** The id to answer under: whatever the metadata holds, or else the envelope's own. */
  function RequestId(env: Envelope): Value {
    match SystemMeta(env, META_REQUEST_ID)
    case Some(v) => if v.Null? then Str(env.id) else v
    case None => Str(env.id)
  }

  function Sender(adapter: string, meta: TransportMeta): string {
    if !Blank(meta.agentId) then Trim(meta.agentId)
    else adapter + ":" + (if !Blank(meta.connectionId) then Trim(meta.connectionId) else "unknown")
  }

  const TARGET_HEADER := "X-Target-Agent"

  function Recipient(meta: TransportMeta): string {
    if TARGET_HEADER in meta.headers && !Blank(meta.headers[TARGET_HEADER]) then Trim(meta.headers[TARGET_HEADER])
    else "broadcast"
  }

  const VERSION := "1.0.0"

  function AdapterInfo(adapter: string, sourceId: string, protocol: string): Value {
    Object(map["adapter_name" := Str(adapter), "adapter_version" := Str(VERSION), "direction" := Str("inbound"),
               "source_id" := Str(sourceId), "source_protocol" := Str(protocol)])
  }

  /** A request id is recorded unless it is empty. */
  function WithRequestId(fields: Fields, sourceId: string): Fields {
    if sourceId == "" then fields else fields[META_REQUEST_ID := Str(sourceId)]
  }

  /** Where and when an envelope is made: the transport, the fresh id and the clock. */
  datatype Arrival = Arrival(meta: TransportMeta, id: Uuid, now: int)

  /** A finished envelope is checked before it is handed on. */
  function Accept(env: Envelope): Result<Envelope, AdapterError> {
    match Validate(env)
    case None => Success(env)
    case Some(e) => Failure(InvalidEnvelope(e))
  }

  /** The envelope an adapter makes of some metadata and content. */
  function Made(adapter: string, protocol: string, arrival: Arrival, sourceId: string, metadata: Fields,
                content: string): Envelope
  {
    Envelope(ToString(arrival.id), Sender(adapter, arrival.meta), Recipient(arrival.meta), "", content,
             metadata[META_ADAPTER := AdapterInfo(adapter, sourceId, protocol)], Rfc3339(arrival.now))
  }

  /** An envelope while an adapter fills it in. */
  class Draft {
    const id: string
    const from: string
    const to: string
    const timestamp: int
    var content: string
    var metadata: Fields

    constructor (adapter: string, arrival: Arrival)
      ensures id == ToString(arrival.id) && from == Sender(adapter, arrival.meta) && to == Recipient(arrival.meta)
      ensures timestamp == arrival.now && content == "" && metadata == map[]
      ensures to == if "X-Target-Agent" in arrival.meta.headers && Trim(arrival.meta.headers["X-Target-Agent"]) != ""
                    then Trim(arrival.meta.headers["X-Target-Agent"]) else "broadcast"
      ensures from == if Trim(arrival.meta.agentId) != "" then Trim(arrival.meta.agentId)
                      else adapter + ":" + if Trim(arrival.meta.connectionId) != "" then Trim(arrival.meta.connectionId)
                                           else "unknown"
    {
      var sender := Trim(arrival.meta.agentId);
      if sender == "" {
        var connection := Trim(arrival.meta.connectionId);
        if connection == "" {
          connection := "unknown";
        }
        sender := adapter + ":" + connection;
      }
      var recipient := "";
      if TARGET_HEADER in arrival.meta.headers {
        recipient := Trim(arrival.meta.headers[TARGET_HEADER]);
      }
      if recipient == "" {
        recipient := "broadcast";
      }
      id, from, to, timestamp := ToString(arrival.id), sender, recipient, arrival.now;
      content, metadata := "", map[];
    }

    method SetSystemMeta(key: string, value: Value)
      modifies this`metadata
      ensures metadata == old(metadata)[key := value]
    {
      metadata := metadata[key := value];
    }

    method SetAdapterMetadata(adapter: string, sourceId: string, protocol: string)
      modifies this`metadata
      ensures metadata == old(metadata)[META_ADAPTER := AdapterInfo(adapter, sourceId, protocol)]
    {
      metadata := metadata[META_ADAPTER := AdapterInfo(adapter, sourceId, protocol)];
    }

    function Sealed(): Envelope
      reads this
    {
      Envelope(id, from, to, "", content, metadata, Rfc3339(timestamp))
    }
  }

  // ---------------------------------------------------------------------------------------------
  // Envelopes with a known system tag are accepted
  // ---------------------------------------------------------------------------------------------

  lemma MadeIsAddressed(adapter: string, protocol: string, arrival: Arrival, sourceId: string, metadata: Fields,
                        content: string)
    requires adapter != "" && !IsSpace(adapter[0])
    ensures var env := Made(adapter, protocol, arrival, sourceId, metadata, content);
            !Blank(env.id) && !Blank(env.from) && !Blank(env.to)
  {
    var env := Made(adapter, protocol, arrival, sourceId, metadata, content);
    IdIsNotBlank(arrival.id);
    if Blank(arrival.meta.agentId) {
      VisibleIsNotBlank(env.from, 0);
    } else {
      TrimIdempotent(arrival.meta.agentId);
    }
    if env.to == "broadcast" {
      VisibleIsNotBlank(env.to, 0);
    } else {
      TrimIdempotent(arrival.meta.headers[TARGET_HEADER]);
    }
  }

  lemma IdIsNotBlank(id: Uuid)
    ensures !Blank(ToString(id))
  {
    assert !IsSpace(ToString(id)[0]);
    VisibleIsNotBlank(ToString(id), 0);
  }

  lemma EmptyIsBlank()
    ensures Blank("")
  {
  }

  /** An envelope with a system tag of the adapters' own passes the check, and that tag is the one it is routed by. */
  lemma MadeIsAccepted(adapter: string, protocol: string, arrival: Arrival, sourceId: string, metadata: Fields,
                       content: string, tag: string)
    requires adapter != "" && !IsSpace(adapter[0])
    requires META_TAG in metadata && metadata[META_TAG] == Str(tag) && IsValidTag(tag) && Trim(tag) == tag
    ensures var env := Made(adapter, protocol, arrival, sourceId, metadata, content);
            Accept(env) == Success(env) && EffectiveTag(env) == tag
  {
    hide Blank, Sender, Recipient, ToString;
    MadeIsAddressed(adapter, protocol, arrival, sourceId, metadata, content);
    EmptyIsBlank();
    assert META_TAG != META_ADAPTER;
  }

  lemma TagIsTrim(tag: string)
    requires tag in KNOWN_TAGS
    ensures Trim(tag) == tag && IsValidTag(tag)
  {
    hide Trim;
    assert tag != "" && !IsSpace(tag[0]) && !IsSpace(tag[|tag| - 1]);
    TrimUnchanged(tag);
  }

  /** What an adapter records stays readable next to its own note about itself, and the envelope is accepted. */
  lemma MadeCarries(adapter: string, protocol: string, arrival: Arrival, sourceId: string, fields: Fields,
                    content: string, tag: string)
    requires adapter != "" && !IsSpace(adapter[0])
    requires tag in KNOWN_TAGS && META_TAG in fields && fields[META_TAG] == Str(tag)
    ensures var env := Made(adapter, protocol, arrival, sourceId, fields, content);
            && Accept(env) == Success(env) && EffectiveTag(env) == tag
            && forall key :: key != META_ADAPTER ==>
                 (key in env.metadata <==> key in fields) && (key in fields ==> env.metadata[key] == fields[key])
  {
    hide Accept, EffectiveTag, IsValidTag, Trim, Sender, Recipient, AdapterInfo;
    TagIsTrim(tag);
    MadeIsAccepted(adapter, protocol, arrival, sourceId, fields, content, tag);
  }
}

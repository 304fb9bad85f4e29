/** The tables behind conversations, groups and messages, and the SQL statements that read and change them.

    Each statement is atomic. Only the constraints of the schema protect the tables: primary keys, foreign keys, the
    unique pair and the ordered-pair check of direct conversations, and the unique group name. */
module Database {
  import opened Wrappers
  import opened Uuids
  import Envelopes

  datatype Kind = User | Agent

  datatype ConversationType = Direct | Group

  datatype Conversation = Conversation(
    kind: ConversationType, pair: Option<Pair>, groupId: Option<Uuid>,
    createdAt: int, lastMessageId: Option<Uuid>, lastMessageAt: int)

  datatype Participant = Participant(conversation: Uuid, id: Uuid, kind: Kind)

  datatype ChatGroup = ChatGroup(name: string, owner: Uuid, conversation: Option<Uuid>)

  /** What a message says: its sender's own tag, its content and its metadata. */
  datatype Body = Body(tag: string, content: string, metadata: map<string, Envelopes.Value>)

  datatype Message = Message(from: Uuid, fromKind: Kind, conversation: Uuid, timestamp: int, body: Body)

  datatype Tables = Tables(
    conversations: map<Uuid, Conversation>, participants: set<Participant>,
    groups: map<Uuid, ChatGroup>, messages: map<Uuid, Message>)

  datatype SqlError = UniqueViolation | CheckViolation | ForeignKeyViolation | NotFound

  const EMPTY := Tables(map[], {}, map[], map[])

  predicate PairTaken(t: Tables, pair: Pair) {
    exists c :: c in t.conversations && t.conversations[c].pair == Some(pair)
  }

  /** The id of a conversation of this pair, if there is one. */
  ghost function SelectDirect(t: Tables, pair: Pair): (found: Option<Uuid>)
    ensures found.Some? ==> found.value in t.conversations && t.conversations[found.value].pair == Some(pair)
    ensures found.None? ==> forall c :: c in t.conversations ==> t.conversations[c].pair != Some(pair)
  {
    if PairTaken(t, pair) then
      var c :| c in t.conversations && t.conversations[c].pair == Some(pair);
      Some(c)
    else None
  }

  function InsertConversation(t: Tables, id: Uuid, kind: ConversationType, pair: Option<Pair>, now: int)
    : Result<Tables, SqlError>
  {
    if !(if kind.Group? then pair.None? else pair.Some? && BytesLess(pair.value.low, pair.value.high)) then
      Failure(CheckViolation)
    else if id in t.conversations || (pair.Some? && PairTaken(t, pair.value)) then
      Failure(UniqueViolation)
    else
      Success(t.(conversations := t.conversations[id := Conversation(kind, pair, None, now, None, now)]))
  }

  function UpdateGroupId(t: Tables, conversation: Uuid, group: Uuid): Result<Tables, SqlError> {
    if conversation !in t.conversations then Failure(NotFound)
    else if group !in t.groups then Failure(ForeignKeyViolation)
    else
      var row := t.conversations[conversation];
      Success(t.(conversations := t.conversations[conversation := row.(groupId := Some(group))]))
  }

  /** A row that is already there is left alone. */
  function InsertParticipant(t: Tables, row: Participant): Result<Tables, SqlError> {
    if row.conversation !in t.conversations then Failure(ForeignKeyViolation)
    else Success(t.(participants := t.participants + {row}))
  }

  function DeleteParticipant(t: Tables, row: Participant): Tables {
    t.(participants := t.participants - {row})
  }

  function InsertGroup(t: Tables, id: Uuid, row: ChatGroup): Result<Tables, SqlError> {
    if id in t.groups || (exists g :: g in t.groups && t.groups[g].name == row.name) then Failure(UniqueViolation)
    else if row.conversation.Some? && row.conversation.value !in t.conversations then Failure(ForeignKeyViolation)
    else Success(t.(groups := t.groups[id := row]))
  }

  /** One transaction: insert the message, and make it its conversation's last message. */
  function SaveMessage(t: Tables, id: Uuid, message: Message): Result<Tables, SqlError> {
    if id in t.messages then Failure(UniqueViolation)
    else if message.conversation !in t.conversations then Failure(ForeignKeyViolation)
    else
      var row := t.conversations[message.conversation];
      Success(t.(messages := t.messages[id := message],
                 conversations := t.conversations[message.conversation :=
                   row.(lastMessageId := Some(id), lastMessageAt := message.timestamp)]))
  }
}

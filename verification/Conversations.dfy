/**
  The conversation service as a concurrent protocol.

  GetOrCreateDirect, CreateGroup, LeaveGroup and the persisting of a message are each a sequence of separate SQL
  statements, with no transaction around them. Here each call is a program counter over its statements, any number of
  calls interleave, any statement may fail or may take effect with its reply lost, and a call may stop for good between
  any two statements. A state is
  reachable if some sequence of actions leads to it; the theorems are about every such sequence.
 */
module Conversations {
  import opened Wrappers
  import opened Uuids
  import opened Database

  datatype Request =
    | OpenDirect(id1: Uuid, id2: Uuid, kind1: Kind, kind2: Kind)
    | FoundGroup(name: string, owner: Uuid)
    | Leave(group: Uuid, member: Uuid, kind: Kind)
    | Send(messageId: Uuid, from: Uuid, to: Uuid, fromKind: Kind, toKind: Kind, timestamp: int,
           body: Body)

  /** How a message found its conversation. */
  datatype Route = ToGroup | ToDirect

  /** The statement a call runs next, or how it ended. */
  datatype Pc =
    | SelectRecipient
    | SelectPair
    | InsertPair
    | AddLow(conversation: Uuid)
    | AddHigh(conversation: Uuid)
    | Save(conversation: Uuid, route: Route)
    | InsertForGroup
    | InsertGroupRow(conversation: Uuid)
    | LinkGroup(conversation: Uuid, group: Uuid)
    | AddOwner(conversation: Uuid, group: Uuid)
    | SelectGroup
    | RemoveMember(conversation: Uuid)
    | Opened(conversation: Uuid)
    | Saved(conversation: Uuid, route: Route)
    | SavedUnheard(conversation: Uuid, route: Route)
    | Founded(conversation: Uuid, group: Uuid)
    | Left
    | Failed

  /** A call, with what it has inserted so far: a conversation, a group, and how many statements it ran after its
      conversation was inserted. */
  datatype Call = Call(request: Request, pc: Pc, made: Option<Uuid>, founded: Option<Uuid>, progress: nat)

  function Start(request: Request): Call {
    var pc :=
      match request
      case OpenDirect(_, _, _, _) => SelectPair
      case FoundGroup(_, _) => InsertForGroup
      case Leave(_, _, _) => SelectGroup
      case Send(_, _, _, _, _, _, _) => SelectRecipient;
    Call(request, pc, None, None, 0)
  }

  predicate Pairs(request: Request) {
    request.OpenDirect? || request.Send?
  }

  /** The first and the second participant of a direct request, with the kinds the caller paired with them. */
  function First(request: Request): (Uuid, Kind)
    requires Pairs(request)
  {
    if request.OpenDirect? then (request.id1, request.kind1) else (request.from, request.fromKind)
  }

  function Second(request: Request): (Uuid, Kind)
    requires Pairs(request)
  {
    if request.OpenDirect? then (request.id2, request.kind2) else (request.to, request.toKind)
  }

  function PairOf(request: Request): Pair
    requires Pairs(request)
  {
    Canonical(First(request).0, Second(request).0)
  }

  predicate Swapped(request: Request)
    requires Pairs(request)
  {
    TextLess(ToString(Second(request).0), ToString(First(request).0))
  }

  /** The row of the lower participant, and of the higher one; the kinds are swapped along with the ids. */
  function LowRow(request: Request, conversation: Uuid): Participant
    requires Pairs(request)
  {
    Participant(conversation, PairOf(request).low, if Swapped(request) then Second(request).1 else First(request).1)
  }

  function HighRow(request: Request, conversation: Uuid): Participant
    requires Pairs(request)
  {
    Participant(conversation, PairOf(request).high, if Swapped(request) then First(request).1 else Second(request).1)
  }

  /** The message of a request, as it is saved to a conversation. */
  function MessageOf(request: Request, c: Uuid): Message
    requires request.Send?
  {
    Message(request.from, request.fromKind, c, request.timestamp, request.body)
  }

  /** Where a direct request goes on once it has its conversation. */
  function Resolved(request: Request, conversation: Uuid): Pc {
    if request.Send? then Save(conversation, ToDirect) else Opened(conversation)
  }

  /** A statement that may be refused: its effect and the call's next state, or an error and no effect. */
  function Try(t: Tables, call: Call, result: Result<Tables, SqlError>, onward: Call): (Tables, Call) {
    match result
    case Success(t') => (t', onward)
    case Failure(_) => (t, call.(pc := Failed))
  }

  /** The statements of GetOrCreateDirect. */
  ghost function ExecuteDirect(t: Tables, call: Call, id: Uuid, now: int): (Tables, Call)
    requires Pairs(call.request)
  {
    var request := call.request;
    match call.pc
    case SelectPair =>
      if First(request).0 == NIL || Second(request).0 == NIL then (t, call.(pc := Failed))
      else
        var found := SelectDirect(t, PairOf(request));
        (t, call.(pc := if found.Some? then Resolved(request, found.value) else InsertPair))
    case InsertPair =>
      Try(t, call, InsertConversation(t, id, Direct, Some(PairOf(request)), now),
          call.(pc := AddLow(id), made := Some(id)))
    case AddLow(c) =>
      Try(t, call, InsertParticipant(t, LowRow(request, c)), call.(pc := AddHigh(c), progress := 1))
    case AddHigh(c) =>
      Try(t, call, InsertParticipant(t, HighRow(request, c)), call.(pc := Resolved(request, c), progress := 2))
    case _ => (t, call)
  }

  /** The statements of CreateGroup. */
  function ExecuteFound(t: Tables, call: Call, id: Uuid, now: int): (Tables, Call)
    requires call.request.FoundGroup?
  {
    var request := call.request;
    match call.pc
    case InsertForGroup =>
      if request.name == "" then (t, call.(pc := Failed))
      else
        Try(t, call, InsertConversation(t, id, Group, None, now),
            call.(pc := InsertGroupRow(id), made := Some(id)))
    case InsertGroupRow(c) =>
      Try(t, call, InsertGroup(t, id, ChatGroup(request.name, request.owner, Some(c))),
          call.(pc := LinkGroup(c, id), founded := Some(id), progress := 1))
    case LinkGroup(c, g) =>
      Try(t, call, UpdateGroupId(t, c, g), call.(pc := AddOwner(c, g), progress := 2))
    case AddOwner(c, g) =>
      Try(t, call, InsertParticipant(t, Participant(c, request.owner, User)),
          call.(pc := Founded(c, g), progress := 3))
    case _ => (t, call)
  }

  /** The statements of LeaveGroup. */
  function ExecuteLeave(t: Tables, call: Call): (Tables, Call)
    requires call.request.Leave?
  {
    var request := call.request;
    match call.pc
    case SelectGroup =>
      if request.group in t.groups && t.groups[request.group].conversation.Some? then
        (t, call.(pc := RemoveMember(t.groups[request.group].conversation.value)))
      else (t, call.(pc := Failed))
    case RemoveMember(c) =>
      (DeleteParticipant(t, Participant(c, request.member, request.kind)), call.(pc := Left))
    case _ => (t, call)
  }

  /** The statements of persisting a message: find the group or else the direct conversation, then save. */
  ghost function ExecuteSend(t: Tables, call: Call, id: Uuid, now: int): (Tables, Call)
    requires call.request.Send?
  {
    var request := call.request;
    match call.pc
    case SelectRecipient =>
      if request.to in t.groups && t.groups[request.to].conversation.Some? then
        (t, call.(pc := Save(t.groups[request.to].conversation.value, ToGroup)))
      else (t, call.(pc := SelectPair))
    case Save(c, route) =>
      Try(t, call, SaveMessage(t, request.messageId, MessageOf(request, c)), call.(pc := Saved(c, route)))
    case _ => ExecuteDirect(t, call, id, now)
  }

  /** The next statement of a call: the tables and the call after it. `id` and `now` are what the generator and the
      clock return if they are asked. */
  ghost function Execute(t: Tables, call: Call, id: Uuid, now: int): (Tables, Call) {
    match call.request
    case OpenDirect(_, _, _, _) => ExecuteDirect(t, call, id, now)
    case FoundGroup(_, _) => ExecuteFound(t, call, id, now)
    case Leave(_, _, _) => ExecuteLeave(t, call)
    case Send(_, _, _, _, _, _, _) => ExecuteSend(t, call, id, now)
  }

  predicate Ended(pc: Pc) {
    pc.Opened? || pc.Saved? || pc.SavedUnheard? || pc.Founded? || pc.Left? || pc.Failed?
  }

  /** The message is saved there, whether the call knows it or not. */
  predicate SavedTo(pc: Pc, c: Uuid, route: Route) {
    pc == Saved(c, route) || pc == SavedUnheard(c, route)
  }

  /** A statement that fails without effect: the call returns the error, except that a failed look-up of the recipient
      among the groups is taken for a recipient that is no group. */
  function Abort(call: Call): Call {
    if Ended(call.pc) then call
    else if call.pc.SelectRecipient? then call.(pc := SelectPair)
    else call.(pc := Failed)
  }

  /** A statement that takes effect although its reply is lost: the call takes it for failed. A message that is saved in
      this way is there, so the call's end remembers where. */
  function Unheard(before: Call, done: Call): Call {
    if Ended(before.pc) then done
    else if before.pc.SelectRecipient? then done.(pc := SelectPair)
    else if done.pc.Saved? then done.(pc := SavedUnheard(done.pc.conversation, done.pc.route))
    else done.(pc := Failed)
  }

  /** The tables, every call ever started, which call inserted which conversation, and the order of the commits. */
  datatype State = State(tables: Tables, calls: seq<Call>, maker: map<Uuid, nat>, committed: seq<Uuid>)

  datatype Action =
    | Begin(request: Request)
    | Step(call: nat, id: Uuid, now: int, heard: bool := true)
    | Fail(call: nat)

  ghost function Next(s: State, action: Action): State {
    match action
    case Begin(request) => s.(calls := s.calls + [Start(request)])
    case Fail(i) => if i < |s.calls| then s.(calls := s.calls[i := Abort(s.calls[i])]) else s
    case Step(i, id, now, heard) =>
      if i >= |s.calls| then s
      else
        var before := s.calls[i];
        var (tables, done) := Execute(s.tables, before, id, now);
        State(tables, s.calls[i := if heard then done else Unheard(before, done)],
              if done.made.Some? then s.maker[done.made.value := i] else s.maker,
              if before.request.Send? && done.pc.Saved? && !before.pc.Saved?
              then s.committed + [before.request.messageId] else s.committed)
  }

  ghost function After(actions: seq<Action>): State {
    if actions == [] then State(EMPTY, [], map[], [])
    else Next(After(actions[..|actions| - 1]), actions[|actions| - 1])
  }
}

/** The service and its repositories as the program runs them: one statement after the other, on mutable tables.

    Each method ends where its protocol ends when no other call interferes (`Alone`), so the theorems about all
    interleavings are about these statement sequences. */
module ConversationService {
  import opened Wrappers
  import opened Uuids
  import opened Database
  import opened Conversations
  import opened ConversationSafety
  import T = ConversationTheorems

  /** The values the generator and the clock hand out during one call. */
  datatype Supply = Supply(conversationId: Uuid, groupId: Uuid, now: int)

  ghost function NextAlone(t: Tables, call: Call, supply: Supply): (Tables, Call) {
    Execute(t, call, if call.pc.InsertGroupRow? then supply.groupId else supply.conversationId, supply.now)
  }

  /** How many statements a call has before it at most. */
  function Remaining(pc: Pc): nat {
    match pc
    case SelectRecipient => 6
    case SelectPair => 5
    case InsertPair | InsertForGroup => 4
    case AddLow(_) | InsertGroupRow(_) => 3
    case AddHigh(_) | LinkGroup(_, _) | SelectGroup => 2
    case Save(_, _) | AddOwner(_, _) | RemoveMember(_) => 1
    case _ => 0
  }

  /** A call that runs its statements without interference. */
  ghost function Alone(t: Tables, call: Call, supply: Supply): (Tables, Call)
    decreases Remaining(call.pc)
  {
    var (t', call') := NextAlone(t, call, supply);
    if Remaining(call'.pc) < Remaining(call.pc) then Alone(t', call', supply) else (t, call)
  }

  /** Running alone is one of the runs of the protocol: whatever happened before, the new call takes its statements
      one after the other and nobody else takes any. */
  lemma AloneIsARun(actions: seq<Action>, request: Request, supply: Supply) returns (more: seq<Action>)
    ensures var (t, call) := Alone(After(actions).tables, Start(request), supply);
            var s := After(actions + [Begin(request)] + more);
            && s.tables == t
            && s.calls == After(actions).calls + [call]
  {
    var begun := actions + [Begin(request)];
    assert begun[..|begun| - 1] == actions;
    assert After(begun).calls == After(actions).calls + [Start(request)];
    more := RestOfRun(begun, |After(actions).calls|, supply);
    var s := After(begun + more);
    assert s.calls == After(actions).calls + [s.calls[|After(actions).calls|]];
  }

  lemma {:induction false} RestOfRun(actions: seq<Action>, i: nat, supply: Supply) returns (more: seq<Action>)
    requires i < |After(actions).calls|
    ensures var s := After(actions);
            var (t, call) := Alone(s.tables, s.calls[i], supply);
            var s' := After(actions + more);
            s'.tables == t && s'.calls == s.calls[i := call]
    decreases Remaining(After(actions).calls[i].pc)
  {
    hide Execute, Unheard;
    var s := After(actions);
    var (t', call') := NextAlone(s.tables, s.calls[i], supply);
    if Remaining(call'.pc) < Remaining(s.calls[i].pc) {
      var step := Step(i, if s.calls[i].pc.InsertGroupRow? then supply.groupId else supply.conversationId, supply.now);
      var stepped := actions + [step];
      assert stepped[..|stepped| - 1] == actions;
      assert After(stepped) == Next(s, step);
      var rest := RestOfRun(stepped, i, supply);
      more := [step] + rest;
      assert actions + more == stepped + rest;
    } else {
      more := [];
      assert actions + more == actions;
    }
  }

  // ---------------------------------------------------------------------------------------------
  // One statement of a call that runs alone
  // ---------------------------------------------------------------------------------------------

  /** A statement that may be refused ends the call, or lets it go on. */
  ghost predicate Continues(t: Tables, call: Call, supply: Supply, outcome: Result<Tables, SqlError>, onward: Call) {
    match outcome
    case Success(t') => Alone(t, call, supply) == Alone(t', onward, supply)
    case Failure(_) => Alone(t, call, supply) == (t, call.(pc := Failed))
  }

  lemma EndedStays(t: Tables, call: Call, supply: Supply)
    requires Ended(call.pc)
    ensures Alone(t, call, supply) == (t, call)
  {
    hide Try, PairOf, LowRow, HighRow, First, Second, SelectDirect, TextLess, ToString;
    hide InsertConversation, InsertParticipant, InsertGroup, UpdateGroupId, DeleteParticipant, SaveMessage;
  }

  lemma SelectsPair(t: Tables, call: Call, supply: Supply)
    requires Pairs(call.request) && call.pc == SelectPair
    ensures var request := call.request;
            Alone(t, call, supply) ==
            if First(request).0 == NIL || Second(request).0 == NIL then (t, call.(pc := Failed))
            else
              var found := SelectDirect(t, PairOf(request));
              Alone(t, call.(pc := if found.Some? then Resolved(request, found.value) else InsertPair), supply)
  {
    hide TextLess, ToString, SelectDirect;
    EndedStays(t, call.(pc := Failed), supply);
  }

  lemma InsertsPair(t: Tables, call: Call, supply: Supply)
    requires Pairs(call.request) && call.pc == InsertPair
    ensures var id := supply.conversationId;
            Continues(t, call, supply, InsertConversation(t, id, Direct, Some(PairOf(call.request)), supply.now),
                      call.(pc := AddLow(id), made := Some(id)))
  {
    hide TextLess, ToString, InsertConversation;
    EndedStays(t, call.(pc := Failed), supply);
  }

  lemma AddsRow(t: Tables, call: Call, supply: Supply, c: Uuid)
    requires Pairs(call.request) && (call.pc == AddLow(c) || call.pc == AddHigh(c))
    ensures var row := if call.pc.AddLow? then LowRow(call.request, c) else HighRow(call.request, c);
            Continues(t, call, supply, InsertParticipant(t, row),
                      if call.pc.AddLow? then call.(pc := AddHigh(c), progress := 1)
                      else call.(pc := Resolved(call.request, c), progress := 2))
  {
    hide TextLess, ToString, InsertParticipant;
    EndedStays(t, call.(pc := Failed), supply);
  }

  lemma FoundsGroup(t: Tables, call: Call, supply: Supply)
    requires call.request.FoundGroup? && call.pc == InsertForGroup
    ensures if call.request.name == "" then Alone(t, call, supply) == (t, call.(pc := Failed))
            else
              var id := supply.conversationId;
              Continues(t, call, supply, InsertConversation(t, id, Group, None, supply.now),
                        call.(pc := InsertGroupRow(id), made := Some(id)))
  {
    hide InsertConversation;
    EndedStays(t, call.(pc := Failed), supply);
  }

  lemma InsertsGroup(t: Tables, call: Call, supply: Supply, c: Uuid)
    requires call.request.FoundGroup? && call.pc == InsertGroupRow(c)
    ensures var g := supply.groupId;
            Continues(t, call, supply, InsertGroup(t, g, ChatGroup(call.request.name, call.request.owner, Some(c))),
                      call.(pc := LinkGroup(c, g), founded := Some(g), progress := 1))
  {
    hide InsertGroup;
    EndedStays(t, call.(pc := Failed), supply);
  }

  lemma LinksGroup(t: Tables, call: Call, supply: Supply, c: Uuid, g: Uuid)
    requires call.request.FoundGroup? && call.pc == LinkGroup(c, g)
    ensures Continues(t, call, supply, UpdateGroupId(t, c, g), call.(pc := AddOwner(c, g), progress := 2))
  {
    hide UpdateGroupId;
    EndedStays(t, call.(pc := Failed), supply);
  }

  lemma AddsOwner(t: Tables, call: Call, supply: Supply, c: Uuid, g: Uuid)
    requires call.request.FoundGroup? && call.pc == AddOwner(c, g)
    ensures Continues(t, call, supply, InsertParticipant(t, Participant(c, call.request.owner, User)),
                      call.(pc := Founded(c, g), progress := 3))
  {
    hide InsertParticipant;
    EndedStays(t, call.(pc := Failed), supply);
  }

  /** A call that founds a group without interference succeeds exactly when the group has a name that no group has yet and
      the two ids are new. Otherwise there is no group; and if it is the name that is taken, or the group's id, the
      conversation is there all the same. */
  lemma FoundsAlone(t: Tables, request: Request, supply: Supply)
    requires request.FoundGroup?
    ensures var (t', call) := Alone(t, Start(request), supply);
            var c, g, now := supply.conversationId, supply.groupId, supply.now;
            if request.name == "" || c in t.conversations then call.pc == Failed && t' == t
            else if g in t.groups || exists h :: h in t.groups && t.groups[h].name == request.name then
              && call.pc == Failed
              && t' == t.(conversations := t.conversations[c := Conversation(Group, None, None, now, None, now)])
            else
              && call.pc == Founded(c, g) && call.request == request
              && t' == Tables(t.conversations[c := Conversation(Group, None, Some(g), now, None, now)],
                              t.participants + {Participant(c, request.owner, User)},
                              t.groups[g := ChatGroup(request.name, request.owner, Some(c))], t.messages)
  {
    hide Alone, NextAlone;
    var c, g := supply.conversationId, supply.groupId;
    var call := Start(request);
    FoundsGroup(t, call, supply);
    if request.name != "" && c !in t.conversations {
      var t1 := InsertConversation(t, c, Group, None, supply.now).value;
      call := call.(pc := InsertGroupRow(c), made := Some(c));
      InsertsGroup(t1, call, supply, c);
      if !(g in t.groups || exists h :: h in t.groups && t.groups[h].name == request.name) {
        var t2 := InsertGroup(t1, g, ChatGroup(request.name, request.owner, Some(c))).value;
        call := call.(pc := LinkGroup(c, g), founded := Some(g), progress := 1);
        LinksGroup(t2, call, supply, c, g);
        var t3 := UpdateGroupId(t2, c, g).value;
        call := call.(pc := AddOwner(c, g), progress := 2);
        AddsOwner(t3, call, supply, c, g);
        var t4 := InsertParticipant(t3, Participant(c, request.owner, User)).value;
        EndedStays(t4, call.(pc := Founded(c, g), progress := 3), supply);
        assert t3.conversations == t.conversations[c := Conversation(Group, None, Some(g), supply.now, None, supply.now)];
      }
    }
  }

  lemma Saves(t: Tables, call: Call, supply: Supply, c: Uuid, route: Route)
    requires call.request.Send? && call.pc == Save(c, route)
    ensures var request := call.request;
            Continues(t, call, supply, SaveMessage(t, request.messageId, MessageOf(request, c)),
                      call.(pc := Saved(c, route)))
  {
    hide SaveMessage;
    EndedStays(t, call.(pc := Failed), supply);
  }

  /** The conversation of a canonical pair is the direct conversation of its two ids. */
  lemma HeldByBoth(t: Tables, a: Uuid, b: Uuid, c: Uuid)
    requires TablesSound(t) && c in t.conversations
    ensures t.conversations[c].pair == Some(Canonical(a, b)) <==> T.DirectOf(t, c, a, b)
  {
    hide TextLess, ToString, Canonical, BytesLess;
    CanonicalPair(a, b);
    if t.conversations[c].pair.Some? {
      var p := t.conversations[c].pair.value;
      T.SmallerFirst(p.low, p.high);
      CanonicalInjective(p.low, p.high, a, b);
    }
  }

  lemma DirectsAreThere(t: Tables, a: Uuid, b: Uuid)
    ensures forall c :: T.DirectOf(t, c, a, b) ==> c in t.conversations
  {
  }

  datatype ServiceError = InvalidInput | Refused(error: SqlError) | NoConversation

  /** What a method returns for a refused statement. */
  function Refusal(error: Option<SqlError>): ServiceError {
    if error.Some? then Refused(error.value) else NoConversation
  }

  class Service {
    var conversations: map<Uuid, Conversation>
    var participants: set<Participant>
    var groups: map<Uuid, ChatGroup>
    var messages: map<Uuid, Message>
    var agents: set<Uuid>

    ghost function State(): Tables
      reads this
    {
      Tables(conversations, participants, groups, messages)
    }

    ghost predicate Valid()
      reads this
    {
      TablesSound(State())
    }

    constructor (agents: set<Uuid>)
      ensures Valid() && State() == EMPTY && this.agents == agents
    {
      conversations, participants, groups, messages := map[], {}, map[], map[];
      this.agents := agents;
    }

    // ---- repositories ---------------------------------------------------------------------------

    method GetDirectByPair(low: Uuid, high: Uuid) returns (found: Option<Uuid>)
      requires Valid()
      ensures found == SelectDirect(State(), Pair(low, high))
      ensures found.Some? ==> found.value in conversations && conversations[found.value].pair == Some(Pair(low, high))
      ensures found.None? ==> forall c :: c in conversations ==> conversations[c].pair != Some(Pair(low, high))
    {
      if c :| c in conversations && conversations[c].pair == Some(Pair(low, high)) {
        return Some(c);
      }
      return None;
    }

    /** The outcome of a statement: its effect, or an error and no effect. */
    ghost predicate Applied(before: Tables, outcome: Result<Tables, SqlError>, error: Option<SqlError>)
      reads this
    {
      match outcome
      case Success(after) => State() == after && error.None?
      case Failure(e) => State() == before && error == Some(e)
    }

    method CreateConversation(id: Uuid, kind: ConversationType, pair: Option<Pair>, now: int)
      returns (error: Option<SqlError>)
      modifies this`conversations
      ensures Applied(old(State()), InsertConversation(old(State()), id, kind, pair, now), error)
      ensures error.None? <==>
                && (if kind.Group? then pair.None? else pair.Some? && BytesLess(pair.value.low, pair.value.high))
                && id !in old(conversations)
                && (pair.Some? ==> forall c :: c in old(conversations) ==> old(conversations)[c].pair != pair)
      ensures conversations == if error.Some? then old(conversations)
                               else old(conversations)[id := Conversation(kind, pair, None, now, None, now)]
    {
      if kind.Group? && pair.Some? {
        return Some(CheckViolation);
      }
      if kind.Direct? && (pair.None? || !BytesLess(pair.value.low, pair.value.high)) {
        return Some(CheckViolation);
      }
      if id in conversations {
        return Some(UniqueViolation);
      }
      if pair.Some? && exists c :: c in conversations && conversations[c].pair == Some(pair.value) {
        return Some(UniqueViolation);
      }
      conversations := conversations[id := Conversation(kind, pair, None, now, None, now)];
      return None;
    }

    method UpdateConversationGroup(conversation: Uuid, group: Uuid) returns (error: Option<SqlError>)
      modifies this`conversations
      ensures Applied(old(State()), UpdateGroupId(old(State()), conversation, group), error)
      ensures error.None? <==> conversation in old(conversations) && group in groups
      ensures conversations == if error.Some? then old(conversations)
                               else old(conversations)[conversation :=
                                      old(conversations)[conversation].(groupId := Some(group))]
    {
      if conversation !in conversations {
        return Some(NotFound);
      }
      if group !in groups {
        return Some(ForeignKeyViolation);
      }
      conversations := conversations[conversation := conversations[conversation].(groupId := Some(group))];
      return None;
    }

    method AddParticipant(row: Participant) returns (error: Option<SqlError>)
      modifies this`participants
      ensures Applied(old(State()), InsertParticipant(old(State()), row), error)
      ensures error.None? <==> row.conversation in conversations
      ensures participants == old(participants) + if error.None? then {row} else {}
    {
      if row.conversation !in conversations {
        return Some(ForeignKeyViolation);
      }
      participants := participants + {row};
      return None;
    }

    method RemoveParticipant(row: Participant)
      modifies this`participants
      ensures State() == DeleteParticipant(old(State()), row)
      ensures participants == old(participants) - {row}
    {
      participants := participants - {row};
    }

    method CreateGroupRow(id: Uuid, row: ChatGroup) returns (error: Option<SqlError>)
      modifies this`groups
      ensures Applied(old(State()), InsertGroup(old(State()), id, row), error)
      ensures error.None? <==>
                && id !in old(groups) && (forall g :: g in old(groups) ==> old(groups)[g].name != row.name)
                && (row.conversation.Some? ==> row.conversation.value in conversations)
      ensures groups == if error.None? then old(groups)[id := row] else old(groups)
    {
      if id in groups || exists g :: g in groups && groups[g].name == row.name {
        return Some(UniqueViolation);
      }
      if row.conversation.Some? && row.conversation.value !in conversations {
        return Some(ForeignKeyViolation);
      }
      groups := groups[id := row];
      return None;
    }

    /** One transaction: the message and its conversation's last-message columns change together or not at all. */
    method SaveAtomically(id: Uuid, message: Message) returns (error: Option<SqlError>)
      modifies this`messages, this`conversations
      ensures Applied(old(State()), SaveMessage(old(State()), id, message), error)
      ensures error.None? <==> id !in old(messages) && message.conversation in old(conversations)
      ensures messages == if error.None? then old(messages)[id := message] else old(messages)
      ensures conversations == if error.Some? then old(conversations)
                               else old(conversations)[message.conversation :=
                                      old(conversations)[message.conversation].(
                                        lastMessageId := Some(id), lastMessageAt := message.timestamp)]
    {
      if id in messages {
        return Some(UniqueViolation);
      }
      if message.conversation !in conversations {
        return Some(ForeignKeyViolation);
      }
      messages := messages[id := message];
      var row := conversations[message.conversation];
      conversations := conversations[message.conversation :=
        row.(lastMessageId := Some(id), lastMessageAt := message.timestamp)];
      return None;
    }

    // ---- service --------------------------------------------------------------------------------

    /** GetOrCreateDirect, on behalf of a request for a direct conversation; `end` is where it leaves the request. */
    method GetOrCreateDirect(id1: Uuid, id2: Uuid, kind1: Kind, kind2: Kind, supply: Supply, ghost request: Request)
      returns (r: Result<Uuid, ServiceError>, ghost end: Call)
      requires Valid()
      requires Pairs(request) && First(request) == (id1, kind1) && Second(request) == (id2, kind2)
      modifies this`conversations, this`participants
      ensures Valid()
      ensures end.request == request && end.pc == if r.Success? then Resolved(request, r.value) else Failed
      ensures Alone(old(State()), Call(request, SelectPair, None, None, 0), supply) == Alone(State(), end, supply)
      ensures r.Success? <==>
                && id1 != NIL && id2 != NIL
                && ((exists c :: T.DirectOf(old(State()), c, id1, id2))
                    || (id1 != id2 && supply.conversationId !in old(conversations)))
      ensures r.Success? ==> T.DirectOf(State(), r.value, id1, id2)
      ensures if r.Failure? || exists c :: T.DirectOf(old(State()), c, id1, id2) then State() == old(State())
              else
                && r.value == supply.conversationId
                && r.value in conversations
                && conversations == old(conversations)[r.value :=
                     Conversation(Direct, conversations[r.value].pair, None, supply.now, None, supply.now)]
                && participants == old(participants)
                                   + {Participant(r.value, id1, kind1), Participant(r.value, id2, kind2)}
    {
      hide Alone, TextLess, ToString, BytesLess, TablesSound, InsertConversation, InsertParticipant, NextAlone;
      hide T.DirectOf;
      end := Call(request, SelectPair, None, None, 0);
      CanonicalPair(id1, id2);
      forall c | c in conversations
        ensures conversations[c].pair == Some(Canonical(id1, id2)) <==> T.DirectOf(State(), c, id1, id2)
      {
        HeldByBoth(State(), id1, id2, c);
      }
      DirectsAreThere(State(), id1, id2);
      SelectsPair(State(), end, supply);
      if id1 == NIL || id2 == NIL {
        end := end.(pc := Failed);
        EndedStays(State(), end, supply);
        return Failure(InvalidInput), end;
      }
      var idLow, idHigh, kindLow, kindHigh := id1, id2, kind1, kind2;
      if TextLess(ToString(id2), ToString(id1)) {
        idLow, idHigh := id2, id1;
        kindLow, kindHigh := kind2, kind1;
      }
      var found := GetDirectByPair(idLow, idHigh);
      if found.Some? {
        return Success(found.value), end.(pc := Resolved(request, found.value));
      }
      end := end.(pc := InsertPair);
      r, end := CreateDirect(Pair(idLow, idHigh), kindLow, kindHigh, supply, end);
      if r.Success? {
        HeldByBoth(State(), id1, id2, r.value);
      }
    }

    /** The inserts of GetOrCreateDirect, once no conversation was found. */
    method CreateDirect(pair: Pair, kindLow: Kind, kindHigh: Kind, supply: Supply, ghost call: Call)
      returns (r: Result<Uuid, ServiceError>, ghost end: Call)
      requires Valid()
      requires Pairs(call.request) && call.pc == InsertPair && PairOf(call.request) == pair
      requires forall c :: LowRow(call.request, c) == Participant(c, pair.low, kindLow)
      requires forall c :: HighRow(call.request, c) == Participant(c, pair.high, kindHigh)
      modifies this`conversations, this`participants
      ensures Valid()
      ensures end.request == call.request && end.pc == if r.Success? then Resolved(call.request, r.value) else Failed
      ensures Alone(old(State()), call, supply) == Alone(State(), end, supply)
      ensures r.Success? <==>
                && BytesLess(pair.low, pair.high) && supply.conversationId !in old(conversations)
                && forall c :: c in old(conversations) ==> old(conversations)[c].pair != Some(pair)
      ensures if r.Failure? then State() == old(State())
              else
                && r.value == supply.conversationId
                && conversations == old(conversations)[r.value :=
                     Conversation(Direct, Some(pair), None, supply.now, None, supply.now)]
                && participants == old(participants)
                                   + {Participant(r.value, pair.low, kindLow), Participant(r.value, pair.high, kindHigh)}
    {
      hide Alone, TextLess, ToString, BytesLess, TablesSound, InsertConversation, InsertParticipant, NextAlone;
      var c := supply.conversationId;
      InsertsPair(State(), call, supply);
      InsertConversationSafe(State(), c, Direct, Some(pair), supply.now);
      EndedStays(State(), call.(pc := Failed), supply);
      var error := CreateConversation(c, Direct, Some(pair), supply.now);
      if error.Some? {
        return Failure(Refusal(error)), call.(pc := Failed);
      }
      end := call.(pc := AddLow(c), made := Some(c));
      AddsRow(State(), end, supply, c);
      InsertParticipantSafe(State(), Participant(c, pair.low, kindLow));
      EndedStays(State(), end.(pc := Failed), supply);
      error := AddParticipant(Participant(c, pair.low, kindLow));
      if error.Some? {
        return Failure(Refusal(error)), end.(pc := Failed);
      }
      end := end.(pc := AddHigh(c), progress := 1);
      AddsRow(State(), end, supply, c);
      InsertParticipantSafe(State(), Participant(c, pair.high, kindHigh));
      EndedStays(State(), end.(pc := Failed), supply);
      error := AddParticipant(Participant(c, pair.high, kindHigh));
      if error.Some? {
        return Failure(Refusal(error)), end.(pc := Failed);
      }
      return Success(c), end.(pc := Resolved(call.request, c), progress := 2);
    }

    method CreateGroup(name: string, creator: Uuid, supply: Supply) returns (r: Result<Uuid, ServiceError>)
      requires Valid()
      modifies this
      ensures Valid()
      ensures var (t, call) := Alone(old(State()), Start(FoundGroup(name, creator)), supply);
              && State() == t
              && (if r.Success? then call.pc.Founded? && call.pc.group == r.value else call.pc.Failed?)
      ensures messages == old(messages)
      ensures r.Success? <==>
                && name != "" && supply.conversationId !in old(conversations) && supply.groupId !in old(groups)
                && forall g :: g in old(groups) ==> old(groups)[g].name != name
      ensures r.Success? ==>
                && r.value == supply.groupId
                && var c := supply.conversationId;
                   && groups == old(groups)[r.value := ChatGroup(name, creator, Some(c))]
                   && conversations == old(conversations)[c :=
                        Conversation(Group, None, Some(r.value), supply.now, None, supply.now)]
                   && participants == old(participants) + {Participant(c, creator, User)}
      ensures r.Failure? ==>
                && groups == old(groups) && participants == old(participants)
                && conversations == if name == "" || supply.conversationId in old(conversations) then old(conversations)
                                    else old(conversations)[supply.conversationId :=
                                           Conversation(Group, None, None, supply.now, None, supply.now)]
    {
      hide Alone, TablesSound, InsertConversation, InsertParticipant, InsertGroup, UpdateGroupId, NextAlone;
      ghost var call := Start(FoundGroup(name, creator));
      FoundsAlone(State(), call.request, supply);
      FoundsGroup(State(), call, supply);
      if name == "" {
        return Failure(InvalidInput);
      }
      var c, g := supply.conversationId, supply.groupId;
      InsertConversationSafe(State(), c, Group, None, supply.now);
      var error := CreateConversation(c, Group, None, supply.now);
      if error.Some? {
        return Failure(Refusal(error));
      }
      call := call.(pc := InsertGroupRow(c), made := Some(c));
      InsertsGroup(State(), call, supply, c);
      InsertGroupSafe(State(), g, ChatGroup(name, creator, Some(c)));
      error := CreateGroupRow(g, ChatGroup(name, creator, Some(c)));
      if error.Some? {
        return Failure(Refusal(error));
      }
      call := call.(pc := LinkGroup(c, g), founded := Some(g), progress := 1);
      LinksGroup(State(), call, supply, c, g);
      UpdateGroupIdSafe(State(), c, g);
      error := UpdateConversationGroup(c, g);
      if error.Some? {
        return Failure(Refusal(error));
      }
      call := call.(pc := AddOwner(c, g), progress := 2);
      AddsOwner(State(), call, supply, c, g);
      InsertParticipantSafe(State(), Participant(c, creator, User));
      error := AddParticipant(Participant(c, creator, User));
      if error.Some? {
        return Failure(Refusal(error));
      }
      call := call.(pc := Founded(c, g), progress := 3);
      EndedStays(State(), call, supply);
      return Success(g);
    }

    method LeaveGroup(group: Uuid, member: Uuid, kind: Kind, ghost supply: Supply)
      returns (error: Option<ServiceError>)
      requires Valid()
      modifies this`participants
      ensures Valid()
      ensures var (t, call) := Alone(old(State()), Start(Leave(group, member, kind)), supply);
              State() == t && (if error.None? then call.pc.Left? else call.pc.Failed?)
      ensures error.None? <==> group in groups && groups[group].conversation.Some?
      ensures error.None? ==>
                var row := Participant(groups[group].conversation.value, member, kind);
                row !in participants && participants + {row} == old(participants) + {row}
      ensures error.Some? ==> participants == old(participants)
    {
      hide TablesSound;
      ghost var call := Start(Leave(group, member, kind));
      if group !in groups {
        EndedStays(State(), call.(pc := Failed), supply);
        return Some(Refused(NotFound));
      }
      if groups[group].conversation.None? {
        EndedStays(State(), call.(pc := Failed), supply);
        return Some(NoConversation);
      }
      var c := groups[group].conversation.value;
      assert Alone(State(), call, supply) == Alone(State(), call.(pc := RemoveMember(c)), supply);
      EndedStays(DeleteParticipant(State(), Participant(c, member, kind)), call.(pc := Left), supply);
      DeleteParticipantSafe(State(), Participant(c, member, kind));
      RemoveParticipant(Participant(c, member, kind));
      return None;
    }

    /** The kind of an entity: an agent if the agents table knows it, and a user otherwise. */
    function KindOf(id: Uuid): Kind
      reads this`agents
    {
      if id in agents then Agent else User
    }

    /** Persisting a published message whose ids are well formed: into the group it is addressed to, or else into the
        direct conversation with its addressee. */
    method PersistMessage(messageId: Uuid, from: Uuid, to: Uuid, timestamp: int, body: Body, supply: Supply)
      returns (r: Result<Uuid, ServiceError>)
      requires Valid()
      modifies this`conversations, this`participants, this`messages
      ensures Valid()
      ensures var request := Send(messageId, from, to, KindOf(from), KindOf(to), timestamp, body);
              var (t, call) := Alone(old(State()), Start(request), supply);
              && State() == t
              && (if r.Success? then call.pc.Saved? && call.pc.conversation == r.value else call.pc.Failed?)
      ensures r.Success? <==>
                && messageId !in old(messages)
                && (|| to in groups
                    || (from != NIL && to != NIL
                        && ((exists c :: T.DirectOf(old(State()), c, from, to))
                            || (from != to && supply.conversationId !in old(conversations)))))
      ensures messages == if r.Failure? then old(messages)
                          else old(messages)[messageId :=
                                 Message(from, if from in agents then Agent else User, r.value, timestamp, body)]
      ensures r.Success? ==>
                if to in groups then groups[to].conversation == Some(r.value) && participants == old(participants)
                else
                  && T.DirectOf(State(), r.value, from, to)
                  && participants ==
                     if exists c :: T.DirectOf(old(State()), c, from, to) then old(participants)
                     else old(participants) + {Participant(r.value, from, if from in agents then Agent else User),
                                               Participant(r.value, to, if to in agents then Agent else User)}
    {
      hide Alone, TextLess, ToString, TablesSound, SaveMessage, NextAlone;
      var fromKind := KindOf(from);
      ghost var request := Send(messageId, from, to, fromKind, KindOf(to), timestamp, body);
      ghost var call := Start(request);
      SelectsRecipient(State(), call, supply);
      TargetIsGroup(State(), to);
      var c: Uuid;
      if to in groups && groups[to].conversation.Some? {
        c := groups[to].conversation.value;
        call := call.(pc := Save(c, ToGroup));
      } else {
        var toKind := KindOf(to);
        r, call := GetOrCreateDirect(from, to, fromKind, toKind, supply, request);
        if r.Failure? {
          EndedStays(State(), call, supply);
          return;
        }
        c := r.value;
      }
      var message := Message(from, fromKind, c, timestamp, body);
      Saves(State(), call, supply, c, call.pc.route);
      SaveMessageSafe(State(), messageId, message);
      var error := SaveAtomically(messageId, message);
      if error.Some? {
        return Failure(Refusal(error));
      }
      EndedStays(State(), call.(pc := Saved(c, call.pc.route)), supply);
      return Success(c);
    }
  }

  lemma SelectsRecipient(t: Tables, call: Call, supply: Supply)
    requires call.request.Send? && call.pc == SelectRecipient
    ensures var to := call.request.to;
            Alone(t, call, supply) ==
            Alone(t, call.(pc := if to in t.groups && t.groups[to].conversation.Some?
                                 then Save(t.groups[to].conversation.value, ToGroup) else SelectPair), supply)
  {
  }
}

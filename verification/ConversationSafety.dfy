/** What every interleaving of conversation calls keeps, and what follows for every reachable state. */
module ConversationSafety {
  import opened Wrappers
  import opened Uuids
  import opened Database
  import opened Conversations

  // ---------------------------------------------------------------------------------------------
  // The invariant
  // ---------------------------------------------------------------------------------------------

  ghost predicate IsGroup(t: Tables, c: Uuid) {
    c in t.conversations && t.conversations[c].kind.Group?
  }

  ghost predicate HoldsPair(t: Tables, c: Uuid, request: Request)
    requires Pairs(request)
  {
    c in t.conversations && t.conversations[c].pair == Some(PairOf(request))
  }

  ghost predicate InGroup(t: Tables, g: Uuid, c: Uuid) {
    g in t.groups && t.groups[g].conversation == Some(c)
  }

  /** The call inserted this conversation, or somebody else did. */
  ghost predicate Complete(call: Call, c: Uuid) {
    call.made.None? || (call.made == Some(c) && call.progress == 2)
  }

  ghost predicate SavedSound(t: Tables, call: Call, c: Uuid, route: Route) {
    var request := call.request;
    && request.Send? && Complete(call, c)
    && (if route.ToDirect? then HoldsPair(t, c, request) else InGroup(t, request.to, c) && IsGroup(t, c))
    && request.messageId in t.messages
    && t.messages[request.messageId] == MessageOf(request, c)
  }

  /** What a call knows at each of its statements. */
  ghost predicate PcSound(t: Tables, call: Call) {
    var request := call.request;
    match call.pc
    case SelectRecipient => request.Send? && call.made.None?
    case SelectPair => Pairs(request) && call.made.None?
    case InsertPair => Pairs(request) && call.made.None?
    case AddLow(c) => Pairs(request) && call.made == Some(c) && call.progress == 0
    case AddHigh(c) => Pairs(request) && call.made == Some(c) && call.progress == 1
    case Opened(c) => request.OpenDirect? && HoldsPair(t, c, request) && Complete(call, c)
    case Save(c, route) =>
      && request.Send? && Complete(call, c)
      && (if route.ToDirect? then HoldsPair(t, c, request) else InGroup(t, request.to, c) && IsGroup(t, c))
    case Saved(c, route) => SavedSound(t, call, c, route)
    case SavedUnheard(c, route) => SavedSound(t, call, c, route)
    case InsertForGroup => request.FoundGroup? && call.made.None? && call.founded.None?
    case InsertGroupRow(c) => request.FoundGroup? && call.made == Some(c) && call.founded.None? && call.progress == 0
    case LinkGroup(c, g) => request.FoundGroup? && call.made == Some(c) && call.founded == Some(g) && call.progress == 1
    case AddOwner(c, g) => request.FoundGroup? && call.made == Some(c) && call.founded == Some(g) && call.progress == 2
    case Founded(c, g) => request.FoundGroup? && call.made == Some(c) && call.founded == Some(g) && call.progress == 3
    case SelectGroup => request.Leave? && call.made.None?
    case RemoveMember(c) => request.Leave? && call.made.None? && IsGroup(t, c)
    case Left => request.Leave? && call.made.None?
    case Failed => true
  }

  ghost predicate CallSound(t: Tables, call: Call) {
    && (call.made.Some? ==>
          && !call.request.Leave?
          && call.made.value in t.conversations
          && (if Pairs(call.request) then HoldsPair(t, call.made.value, call.request)
              else IsGroup(t, call.made.value)))
    && (call.founded.Some? ==>
          call.request.FoundGroup? && call.made.Some? && InGroup(t, call.founded.value, call.made.value))
    && (call.made.None? ==> call.progress == 0)
    && (call.request.FoundGroup? ==> (call.progress >= 1 <==> call.founded.Some?))
    && PcSound(t, call)
  }

  /** The constraints of the schema, and the direct conversations' types. */
  ghost predicate TablesSound(t: Tables) {
    && (forall c :: c in t.conversations ==>
          var row := t.conversations[c];
          if row.kind.Direct? then row.pair.Some? && BytesLess(row.pair.value.low, row.pair.value.high)
          else row.pair.None?)
    && (forall c, d ::
          (c in t.conversations && d in t.conversations && t.conversations[c].pair.Some?
           && t.conversations[c].pair == t.conversations[d].pair) ==> c == d)
    && (forall g :: g in t.groups ==>
          t.groups[g].conversation.Some? && IsGroup(t, t.groups[g].conversation.value))
    && (forall row :: row in t.participants ==> row.conversation in t.conversations)
    && (forall m :: m in t.messages ==> t.messages[m].conversation in t.conversations)
  }

  /** Every conversation was inserted by exactly one call. */
  ghost predicate Owned(s: State) {
    && s.maker.Keys == s.tables.conversations.Keys
    && (forall c :: c in s.maker ==> s.maker[c] < |s.calls| && s.calls[s.maker[c]].made == Some(c))
    && (forall i :: 0 <= i < |s.calls| && s.calls[i].made.Some? ==>
          s.calls[i].made.value in s.maker && s.maker[s.calls[i].made.value] == i)
  }

  ghost function Maker(s: State, c: Uuid): Call
    requires Owned(s) && c in s.tables.conversations
  {
    s.calls[s.maker[c]]
  }

  /** The group that a call has linked its conversation to. */
  ghost function LinkedTo(call: Call): Option<Uuid> {
    if call.request.FoundGroup? && call.progress >= 2 then call.founded else None
  }

  /** A group belongs to the call that founded it, and a conversation carries a group id exactly when its founder has
      linked it. */
  ghost predicate GroupsOwned(s: State)
    requires Owned(s)
  {
    && (forall g :: g in s.tables.groups ==>
          && s.tables.groups[g].conversation.Some?
          && s.tables.groups[g].conversation.value in s.tables.conversations
          && Maker(s, s.tables.groups[g].conversation.value).founded == Some(g))
    && (forall c :: c in s.tables.conversations ==>
          s.tables.conversations[c].groupId == LinkedTo(Maker(s, c)))
  }

  /** The rows that a call has inserted into the conversation it made. */
  ghost predicate Inserted(call: Call, row: Participant) {
    if Pairs(call.request) then
      || (row == LowRow(call.request, row.conversation) && call.progress >= 1)
      || (row == HighRow(call.request, row.conversation) && call.progress >= 2)
    else
      call.request.FoundGroup? && row == Participant(row.conversation, call.request.owner, User) && call.progress >= 3
  }

  /** Participant rows come from the conversation's maker, and those of direct conversations stay. */
  ghost predicate RowsExact(s: State)
    requires Owned(s)
  {
    && (forall row :: row in s.tables.participants ==>
          row.conversation in s.tables.conversations && Inserted(Maker(s, row.conversation), row))
    && (forall row: Participant ::
          (&& row.conversation in s.tables.conversations
           && s.tables.conversations[row.conversation].kind.Direct?
           && Inserted(Maker(s, row.conversation), row)) ==> row in s.tables.participants)
  }

  ghost predicate CallsSound(s: State) {
    forall i :: 0 <= i < |s.calls| ==> CallSound(s.tables, s.calls[i])
  }

  ghost predicate Inv(s: State) {
    && TablesSound(s.tables)
    && CallsSound(s)
    && Owned(s)
    && GroupsOwned(s)
    && RowsExact(s)
  }

  // ---------------------------------------------------------------------------------------------
  // One statement
  // ---------------------------------------------------------------------------------------------

  /** Conversations keep their type and pair, groups and messages never change, and none of them goes away. */
  ghost predicate Extends(t: Tables, t': Tables) {
    && (forall c :: c in t.conversations ==>
          && c in t'.conversations
          && t'.conversations[c].kind == t.conversations[c].kind
          && t'.conversations[c].pair == t.conversations[c].pair)
    && (forall g :: g in t.groups ==> g in t'.groups && t'.groups[g] == t.groups[g])
    && (forall m :: m in t.messages ==> m in t'.messages && t'.messages[m] == t.messages[m])
  }

  lemma SoundInExtension(t: Tables, t': Tables, call: Call)
    requires CallSound(t, call) && Extends(t, t')
    ensures CallSound(t', call)
  {
  }

  lemma InsertConversationSafe(t: Tables, id: Uuid, kind: ConversationType, pair: Option<Pair>, now: int)
    requires TablesSound(t)
    ensures var r := InsertConversation(t, id, kind, pair, now);
            r.Success? ==> Extends(t, r.value) && TablesSound(r.value) && id in r.value.conversations
                           && r.value.conversations[id] == Conversation(kind, pair, None, now, None, now)
  {
    hide BytesLess;
  }

  lemma UpdateGroupIdSafe(t: Tables, c: Uuid, g: Uuid)
    requires TablesSound(t)
    ensures var r := UpdateGroupId(t, c, g);
            r.Success? ==> Extends(t, r.value) && TablesSound(r.value)
  {
    hide BytesLess;
  }

  lemma InsertParticipantSafe(t: Tables, row: Participant)
    requires TablesSound(t)
    ensures var r := InsertParticipant(t, row);
            r.Success? ==> Extends(t, r.value) && TablesSound(r.value)
  {
    hide BytesLess;
  }

  lemma InsertGroupSafe(t: Tables, g: Uuid, row: ChatGroup)
    requires TablesSound(t) && row.conversation.Some? && IsGroup(t, row.conversation.value)
    ensures var r := InsertGroup(t, g, row);
            r.Success? ==> Extends(t, r.value) && TablesSound(r.value) && InGroup(r.value, g, row.conversation.value)
  {
    hide BytesLess;
  }

  lemma SaveMessageSafe(t: Tables, id: Uuid, message: Message)
    requires TablesSound(t)
    ensures var r := SaveMessage(t, id, message);
            r.Success? ==> Extends(t, r.value) && TablesSound(r.value)
                           && id in r.value.messages && r.value.messages[id] == message
  {
    hide BytesLess;
  }

  /** A statement keeps the tables sound, extends them, and leaves its own call sound. */
  ghost predicate StepSafe(t: Tables, call: Call, t': Tables, call': Call) {
    && Extends(t, t') && TablesSound(t')
    && CallSound(t', call') && call'.request == call.request
  }

  lemma ExecuteDirectSafe(t: Tables, call: Call, id: Uuid, now: int)
    requires TablesSound(t) && CallSound(t, call) && Pairs(call.request)
    ensures var (t', call') := ExecuteDirect(t, call, id, now); StepSafe(t, call, t', call')
  {
    hide TablesSound, InsertConversation, InsertParticipant, PairOf, First, Second, LowRow, HighRow;
    InsertConversationSafe(t, id, Direct, Some(PairOf(call.request)), now);
    if call.made.Some? {
      InsertParticipantSafe(t, LowRow(call.request, call.made.value));
      InsertParticipantSafe(t, HighRow(call.request, call.made.value));
    }
  }

  lemma ExecuteFoundSafe(t: Tables, call: Call, id: Uuid, now: int)
    requires TablesSound(t) && CallSound(t, call) && call.request.FoundGroup?
    ensures var (t', call') := ExecuteFound(t, call, id, now); StepSafe(t, call, t', call')
  {
    hide TablesSound, InsertConversation, InsertParticipant, InsertGroup, UpdateGroupId;
    match call.pc
    case InsertForGroup => InsertConversationSafe(t, id, Group, None, now);
    case InsertGroupRow(c) => InsertGroupSafe(t, id, ChatGroup(call.request.name, call.request.owner, Some(c)));
    case LinkGroup(c, g) => UpdateGroupIdSafe(t, c, g);
    case AddOwner(c, _) => InsertParticipantSafe(t, Participant(c, call.request.owner, User));
    case _ =>
  }

  lemma ExecuteLeaveSafe(t: Tables, call: Call)
    requires TablesSound(t) && CallSound(t, call) && call.request.Leave?
    ensures var (t', call') := ExecuteLeave(t, call); StepSafe(t, call, t', call')
  {
    hide BytesLess, TablesSound;
    TargetIsGroup(t, call.request.group);
    if call.pc.RemoveMember? {
      DeleteParticipantSafe(t, Participant(call.pc.conversation, call.request.member, call.request.kind));
    }
  }

  lemma DeleteParticipantSafe(t: Tables, row: Participant)
    requires TablesSound(t)
    ensures Extends(t, DeleteParticipant(t, row)) && TablesSound(DeleteParticipant(t, row))
  {
    hide BytesLess;
  }

  lemma TargetIsGroup(t: Tables, g: Uuid)
    requires TablesSound(t)
    ensures g in t.groups ==>
              t.groups[g].conversation.Some? && IsGroup(t, t.groups[g].conversation.value)
  {
  }

  lemma ExecuteSendSafe(t: Tables, call: Call, id: Uuid, now: int)
    requires TablesSound(t) && CallSound(t, call) && call.request.Send?
    ensures var (t', call') := ExecuteSend(t, call, id, now); StepSafe(t, call, t', call')
  {
    hide TablesSound, SaveMessage, ExecuteDirect, PairOf, First, Second;
    TargetIsGroup(t, call.request.to);
    match call.pc
    case Save(c, route) =>
      var request := call.request;
      SaveMessageSafe(t, request.messageId, MessageOf(request, c));
    case _ =>
      ExecuteDirectSafe(t, call, id, now);
  }

  lemma ExecuteSafe(t: Tables, call: Call, id: Uuid, now: int)
    requires TablesSound(t) && CallSound(t, call)
    ensures var (t', call') := Execute(t, call, id, now); StepSafe(t, call, t', call')
  {
    hide TablesSound, CallSound;
    match call.request
    case OpenDirect(_, _, _, _) => ExecuteDirectSafe(t, call, id, now);
    case FoundGroup(_, _) => ExecuteFoundSafe(t, call, id, now);
    case Leave(_, _, _) => ExecuteLeaveSafe(t, call);
    case Send(_, _, _, _, _, _, _) => ExecuteSendSafe(t, call, id, now);
  }

  // ---------------------------------------------------------------------------------------------
  // What one statement changes
  // ---------------------------------------------------------------------------------------------

  /** A statement inserts no conversation, or the one that becomes its call's own. */
  ghost predicate MakesAtMostOne(t: Tables, call: Call, t': Tables, call': Call) {
    || (call'.made == call.made && t'.conversations.Keys == t.conversations.Keys)
    || (&& call.made.None? && call'.made.Some? && call'.made.value !in t.conversations
        && t'.conversations.Keys == t.conversations.Keys + {call'.made.value}
        && t'.conversations[call'.made.value].groupId.None? && call'.progress == 0)
  }

  /** A statement inserts no group, or one for its call's own conversation. */
  ghost predicate FoundsAtMostOne(t: Tables, call: Call, t': Tables, call': Call) {
    || (call'.founded == call.founded && t'.groups == t.groups)
    || (&& call.founded.None? && call.made.Some? && call'.made == call.made && call'.founded.Some?
        && call'.founded.value !in t.groups
        && t'.groups.Keys == t.groups.Keys + {call'.founded.value}
        && (forall g :: g in t.groups ==> t'.groups[g] == t.groups[g])
        && t'.groups[call'.founded.value].conversation == call.made)
  }

  /** A statement changes the group id of no conversation but its call's own. */
  ghost predicate LinksOwn(t: Tables, call: Call, t': Tables, call': Call) {
    forall c :: c in t.conversations && c in t'.conversations ==>
      t'.conversations[c].groupId
      == if call.made == Some(c) && LinkedTo(call') != LinkedTo(call) then LinkedTo(call')
         else t.conversations[c].groupId
  }

  lemma MakesOne(t: Tables, call: Call, id: Uuid, now: int)
    requires CallSound(t, call)
    ensures var (t', call') := Execute(t, call, id, now); MakesAtMostOne(t, call, t', call')
  {
    hide PairOf, First, Second, LowRow, HighRow, BytesLess, SelectDirect, PairTaken;
  }

  lemma FoundsOne(t: Tables, call: Call, id: Uuid, now: int)
    requires CallSound(t, call)
    ensures var (t', call') := Execute(t, call, id, now); FoundsAtMostOne(t, call, t', call')
  {
    hide PairOf, First, Second, LowRow, HighRow, BytesLess, SelectDirect, PairTaken;
  }

  lemma LinksOnlyOwn(t: Tables, call: Call, id: Uuid, now: int)
    requires CallSound(t, call)
    ensures var (t', call') := Execute(t, call, id, now); LinksOwn(t, call, t', call')
  {
    hide PairOf, First, Second, LowRow, HighRow, BytesLess, SelectDirect, PairTaken;
  }

  lemma EffectOnConversations(t: Tables, call: Call, id: Uuid, now: int)
    requires CallSound(t, call)
    ensures var (t', call') := Execute(t, call, id, now);
            MakesAtMostOne(t, call, t', call') && FoundsAtMostOne(t, call, t', call') && LinksOwn(t, call, t', call')
  {
    hide *;
    MakesOne(t, call, id, now);
    FoundsOne(t, call, id, now);
    LinksOnlyOwn(t, call, id, now);
  }

  /** A statement adds a row only to its call's own conversation, and only by counting it as inserted; it removes rows
      of group conversations at most. */
  ghost predicate RowEffect(t: Tables, call: Call, t': Tables, call': Call, row: Participant) {
    && (row in t'.participants ==>
          row in t.participants || (call.made == Some(row.conversation) && Inserted(call', row)))
    && (row in t.participants && row !in t'.participants ==> IsGroup(t, row.conversation))
    && (call.made == Some(row.conversation) && Inserted(call', row) && !Inserted(call, row) ==> row in t'.participants)
    && (Inserted(call, row) ==> Inserted(call', row))
    && (call.made.None? ==> !Inserted(call', row))
  }

  lemma EffectOnRows(t: Tables, call: Call, id: Uuid, now: int, row: Participant)
    requires CallSound(t, call)
    ensures var (t', call') := Execute(t, call, id, now); RowEffect(t, call, t', call', row)
  {
    hide PairOf, First, Second, Swapped, SelectDirect, PairTaken;
    hide InsertConversation, InsertGroup, UpdateGroupId, SaveMessage;
    TablesOfOthers(t, call, id, now);
  }

  /** Statements on other tables leave the participants alone. */
  lemma TablesOfOthers(t: Tables, call: Call, id: Uuid, now: int)
    ensures forall kind, pair :: var r := InsertConversation(t, id, kind, pair, now);
              r.Success? ==> r.value.participants == t.participants
    ensures forall row :: var r := InsertGroup(t, id, row); r.Success? ==> r.value.participants == t.participants
    ensures forall c, g :: var r := UpdateGroupId(t, c, g); r.Success? ==> r.value.participants == t.participants
    ensures forall m, message :: var r := SaveMessage(t, m, message);
              r.Success? ==> r.value.participants == t.participants
  {
  }

  // ---------------------------------------------------------------------------------------------
  // Every action keeps the invariant
  // ---------------------------------------------------------------------------------------------

  lemma BeginKeepsInv(s: State, request: Request)
    requires Inv(s)
    ensures Inv(Next(s, Begin(request)))
  {
    hide PairOf, BytesLess, TablesSound, LinkedTo, Inserted;
    var s' := Next(s, Begin(request));
    assert CallSound(s.tables, Start(request));
    forall c | c in s.tables.conversations ensures Maker(s', c) == Maker(s, c) {
    }
  }

  lemma AbortIsSound(t: Tables, call: Call)
    requires CallSound(t, call)
    ensures var call' := Abort(call);
            CallSound(t, call') && SameProgress(call, call')
  {
  }

  /** Two states of one call between which it inserted nothing. */
  ghost predicate SameProgress(call: Call, call': Call) {
    call' == call.(pc := call'.pc)
  }

  lemma SameProgressSameRows(call: Call, call': Call)
    requires SameProgress(call, call')
    ensures LinkedTo(call) == LinkedTo(call')
    ensures forall row: Participant :: Inserted(call, row) == Inserted(call', row)
  {
  }

  lemma FailKeepsMakers(s: State, i: nat)
    requires Inv(s) && i < |s.calls|
    ensures var s' := Next(s, Fail(i));
            && CallsSound(s') && Owned(s')
            && forall c :: c in s.tables.conversations ==> SameProgress(Maker(s, c), Maker(s', c))
  {
    hide TablesSound, CallSound, GroupsOwned, RowsExact, Abort;
    AbortIsSound(s.tables, s.calls[i]);
  }

  lemma FailKeepsInv(s: State, i: nat)
    requires Inv(s)
    ensures Inv(Next(s, Fail(i)))
  {
    hide TablesSound, CallsSound, Owned, Maker, LinkedTo, Inserted, Abort;
    if i < |s.calls| {
      FailKeepsMakers(s, i);
      forall call, call' | SameProgress(call, call')
        ensures LinkedTo(call) == LinkedTo(call')
        ensures forall row: Participant :: Inserted(call, row) == Inserted(call', row)
      {
        SameProgressSameRows(call, call');
      }
    }
  }

  /** A call that did not hear the reply knows less, and has inserted the same. */
  lemma UnheardIsSound(t: Tables, call: Call, id: Uuid, now: int)
    requires TablesSound(t) && CallSound(t, call)
    ensures var (t', done) := Execute(t, call, id, now);
            CallSound(t', Unheard(call, done)) && SameProgress(done, Unheard(call, done))
  {
    hide Execute, TablesSound, HoldsPair, InGroup, IsGroup, Extends;
    ExecuteSafe(t, call, id, now);
    if call.pc.SelectRecipient? {
      LookupInsertsNothing(t, call, id, now);
    }
  }

  lemma LookupInsertsNothing(t: Tables, call: Call, id: Uuid, now: int)
    requires CallSound(t, call) && call.pc.SelectRecipient?
    ensures var (t', done) := Execute(t, call, id, now); t' == t && done == call.(pc := done.pc)
  {
  }

  lemma StepKeepsOwned(s: State, i: nat, id: Uuid, now: int, heard: bool)
    requires Inv(s) && i < |s.calls|
    ensures Owned(Next(s, Step(i, id, now, heard)))
    ensures forall c :: c in s.tables.conversations ==>
              && c in Next(s, Step(i, id, now, heard)).tables.conversations
              && Next(s, Step(i, id, now, heard)).maker[c] == s.maker[c]
  {
    hide TablesSound, CallSound, Execute, GroupsOwned, RowsExact, FoundsAtMostOne, LinksOwn, Unheard;
    var call := s.calls[i];
    assert CallSound(s.tables, call);
    EffectOnConversations(s.tables, call, id, now);
    UnheardIsSound(s.tables, call, id, now);
    var s' := Next(s, Step(i, id, now, heard));
    assert s'.maker.Keys == s'.tables.conversations.Keys;
  }

  lemma StepKeepsCalls(s: State, i: nat, id: Uuid, now: int, heard: bool)
    requires Inv(s) && i < |s.calls|
    ensures var s' := Next(s, Step(i, id, now, heard)); TablesSound(s'.tables) && CallsSound(s')
  {
    hide TablesSound, CallSound, Extends, Execute, GroupsOwned, RowsExact, Unheard;
    var call := s.calls[i];
    var (t', call') := Execute(s.tables, call, id, now);
    ExecuteSafe(s.tables, call, id, now);
    UnheardIsSound(s.tables, call, id, now);
    forall j | 0 <= j < |s.calls| ensures CallSound(t', s.calls[j]) {
      SoundInExtension(s.tables, t', s.calls[j]);
    }
  }

  lemma GroupStep(s: State, i: nat, id: Uuid, now: int, heard: bool, g: Uuid)
    requires Inv(s) && i < |s.calls| && Owned(Next(s, Step(i, id, now, heard)))
    requires g in Next(s, Step(i, id, now, heard)).tables.groups
    ensures var s' := Next(s, Step(i, id, now, heard));
            && s'.tables.groups[g].conversation.Some?
            && s'.tables.groups[g].conversation.value in s'.tables.conversations
            && Maker(s', s'.tables.groups[g].conversation.value).founded == Some(g)
  {
    hide TablesSound, CallSound, Execute, RowsExact, LinksOwn, LinkedTo, Unheard;
    var call := s.calls[i];
    assert CallSound(s.tables, call);
    UnheardIsSound(s.tables, call, id, now);
    StepKeepsOwned(s, i, id, now, heard);
    EffectOnConversations(s.tables, call, id, now);
  }

  /** Linking touches the conversation of the call that links, whose founder it is. */
  lemma OldLinkStep(s: State, i: nat, id: Uuid, now: int, heard: bool, c: Uuid)
    requires Inv(s) && i < |s.calls| && Owned(Next(s, Step(i, id, now, heard)))
    requires c in s.tables.conversations && c in Next(s, Step(i, id, now, heard)).tables.conversations
    requires Next(s, Step(i, id, now, heard)).maker[c] == s.maker[c]
    ensures var s' := Next(s, Step(i, id, now, heard));
            s'.tables.conversations[c].groupId == LinkedTo(Maker(s', c))
  {
    hide TablesSound, CallSound, Execute, RowsExact, FoundsAtMostOne, MakesAtMostOne, LinkedTo, Unheard;
    assert CallSound(s.tables, s.calls[i]);
    UnheardIsSound(s.tables, s.calls[i], id, now);
    var done := Execute(s.tables, s.calls[i], id, now).1;
    SameProgressSameRows(done, Unheard(s.calls[i], done));
    EffectOnConversations(s.tables, s.calls[i], id, now);
    assert s.tables.conversations[c].groupId == LinkedTo(Maker(s, c));
  }

  lemma NewLinkStep(s: State, i: nat, id: Uuid, now: int, heard: bool, c: Uuid)
    requires Inv(s) && i < |s.calls| && Owned(Next(s, Step(i, id, now, heard)))
    requires c !in s.tables.conversations && c in Next(s, Step(i, id, now, heard)).tables.conversations
    ensures var s' := Next(s, Step(i, id, now, heard));
            s'.tables.conversations[c].groupId == LinkedTo(Maker(s', c))
  {
    hide TablesSound, CallSound, Execute, RowsExact, GroupsOwned, FoundsAtMostOne, LinksOwn;
    assert CallSound(s.tables, s.calls[i]);
    EffectOnConversations(s.tables, s.calls[i], id, now);
  }

  lemma StepKeepsGroups(s: State, i: nat, id: Uuid, now: int, heard: bool)
    requires Inv(s) && i < |s.calls|
    ensures var s' := Next(s, Step(i, id, now, heard)); Owned(s') && GroupsOwned(s')
  {
    hide Inv, Next, LinkedTo;
    var s' := Next(s, Step(i, id, now, heard));
    StepKeepsOwned(s, i, id, now, heard);
    forall g | g in s'.tables.groups
      ensures s'.tables.groups[g].conversation.Some?
              && s'.tables.groups[g].conversation.value in s'.tables.conversations
              && Maker(s', s'.tables.groups[g].conversation.value).founded == Some(g)
    {
      GroupStep(s, i, id, now, heard, g);
    }
    forall c | c in s'.tables.conversations ensures s'.tables.conversations[c].groupId == LinkedTo(Maker(s', c)) {
      if c in s.tables.conversations {
        OldLinkStep(s, i, id, now, heard, c);
      } else {
        NewLinkStep(s, i, id, now, heard, c);
      }
    }
  }

  lemma StepKeepsRows(s: State, i: nat, id: Uuid, now: int, heard: bool)
    requires Inv(s) && i < |s.calls|
    ensures var s' := Next(s, Step(i, id, now, heard)); Owned(s') && RowsExact(s')
  {
    hide TablesSound, Execute, GroupsOwned, Inserted, RowEffect;
    var call := s.calls[i];
    var s' := Next(s, Step(i, id, now, heard));
    StepKeepsOwned(s, i, id, now, heard);
    forall row | row in s'.tables.participants
      ensures row.conversation in s'.tables.conversations && Inserted(Maker(s', row.conversation), row)
    {
      RowStep(s, i, id, now, heard, row);
    }
    forall row: Participant | row.conversation in s'.tables.conversations
      && s'.tables.conversations[row.conversation].kind.Direct? && Inserted(Maker(s', row.conversation), row)
      ensures row in s'.tables.participants
    {
      RowStep(s, i, id, now, heard, row);
    }
  }

  /** Who made a conversation: the call that ran the statement, or whoever made it before. */
  lemma MakerAfterStep(s: State, i: nat, id: Uuid, now: int, heard: bool, c: Uuid)
    requires Inv(s) && i < |s.calls| && Owned(Next(s, Step(i, id, now, heard)))
    requires c in Next(s, Step(i, id, now, heard)).tables.conversations
    ensures var s' := Next(s, Step(i, id, now, heard));
            if Execute(s.tables, s.calls[i], id, now).1.made == Some(c)
            then
              && Maker(s', c) == s'.calls[i] && (c in s.tables.conversations ==> Maker(s, c) == s.calls[i])
              && (s.calls[i].made.None? || s.calls[i].made == Some(c))
            else c in s.tables.conversations && Maker(s', c) == Maker(s, c) && s.calls[i].made != Some(c)
    ensures s.calls[i].made == Some(c) ==> c in s.tables.conversations
  {
    hide TablesSound, CallSound, Execute, GroupsOwned, RowsExact, FoundsAtMostOne, LinksOwn, Unheard;
    assert CallSound(s.tables, s.calls[i]);
    EffectOnConversations(s.tables, s.calls[i], id, now);
    UnheardIsSound(s.tables, s.calls[i], id, now);
  }

  lemma RowsHaveConversations(t: Tables, row: Participant)
    requires TablesSound(t) && row in t.participants
    ensures row.conversation in t.conversations
  {
  }

  lemma RowStep(s: State, i: nat, id: Uuid, now: int, heard: bool, row: Participant)
    requires Inv(s) && i < |s.calls| && Owned(Next(s, Step(i, id, now, heard)))
    ensures var s' := Next(s, Step(i, id, now, heard));
            && (row in s'.tables.participants ==>
                  row.conversation in s'.tables.conversations && Inserted(Maker(s', row.conversation), row))
            && (&& row.conversation in s'.tables.conversations
                && s'.tables.conversations[row.conversation].kind.Direct?
                && Inserted(Maker(s', row.conversation), row) ==>
                  row in s'.tables.participants)
  {
    hide TablesSound, CallSound, Execute, Owned, Maker, GroupsOwned, Inserted, Unheard, SameProgress;
    var call := s.calls[i];
    UnheardIsSound(s.tables, call, id, now);
    var done := Execute(s.tables, call, id, now).1;
    SameProgressSameRows(done, Unheard(call, done));
    ExecuteSafe(s.tables, call, id, now);
    var s' := Next(s, Step(i, id, now, heard));
    if row in s'.tables.participants {
      RowsHaveConversations(s'.tables, row);
    }
    if row.conversation in s'.tables.conversations {
      MakerAfterStep(s, i, id, now, heard, row.conversation);
    }
    assert CallSound(s.tables, call);
    EffectOnRows(s.tables, call, id, now, row);
  }
}

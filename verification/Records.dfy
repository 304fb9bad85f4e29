/** What the rows of the tables say, in every reachable state, and whom a call that leaves a group removes. */
module Records {
  import opened Wrappers
  import opened Uuids
  import opened Database
  import opened Conversations
  import opened ConversationSafety
  import opened ConversationTheorems
  import opened MessageRouting
  import opened Messages

  // ---------------------------------------------------------------------------------------------
  // Messages
  // ---------------------------------------------------------------------------------------------

  /** The message that a call has saved is from its sender, of the sender's kind, with its timestamp, tag, content and
      metadata, in the conversation that the call has found. */
  lemma SavedMessageSays(actions: seq<Action>, i: nat, c: Uuid, route: Route)
    requires i < |After(actions).calls| && SavedTo(After(actions).calls[i].pc, c, route)
    ensures var t, request := After(actions).tables, After(actions).calls[i].request;
            && request.Send? && request.messageId in t.messages
            && var message := t.messages[request.messageId];
               && message.from == request.from && message.fromKind == request.fromKind
               && message.conversation == c && message.timestamp == request.timestamp
               && message.body == request.body
  {
    hide After, Owned, GroupsOwned, RowsExact, TablesSound, HoldsPair, InGroup, IsGroup;
    EveryRunKeepsInv(actions);
    assert CallSound(After(actions).tables, After(actions).calls[i]);
  }

  /** Every message in the table was saved by a call for it. */
  lemma {:induction false} EveryMessageWasSent(actions: seq<Action>, m: Uuid) returns (i: nat, c: Uuid, route: Route)
    requires m in After(actions).tables.messages
    ensures var call := After(actions).calls;
            i < |call| && call[i].request.Send? && call[i].request.messageId == m && SavedTo(call[i].pc, c, route)
  {
    var n := |actions| - 1;
    var s, action := After(actions[..n]), actions[n];
    hide Execute, LeavesMessages, SavedTo, Abort, Unheard;
    if m in s.tables.messages {
      i, c, route := EveryMessageWasSent(actions[..n], m);
      SavedIsEnded(s.calls[i].pc, c, route);
      ConversationTheorems.EndedStays(s, action, i);
    } else {
      i := action.call;
      c, route := SavesNow(s, action, m);
    }
  }

  lemma SavedIsEnded(pc: Pc, c: Uuid, route: Route)
    requires SavedTo(pc, c, route)
    ensures Ended(pc)
  {
  }

  /** An action that brings a message into the table is the one with which its call ends. */
  lemma SavesNow(s: State, action: Action, m: Uuid) returns (c: Uuid, route: Route)
    requires m !in s.tables.messages && m in Next(s, action).tables.messages
    ensures action.Step? && action.call < |s.calls| && s.calls[action.call].request.Send?
    ensures s.calls[action.call].request.messageId == m
    ensures Next(s, action).calls[action.call].request == s.calls[action.call].request
    ensures SavedTo(Next(s, action).calls[action.call].pc, c, route)
  {
    assert action.Step? && action.call < |s.calls|;
    var call := s.calls[action.call];
    EffectOnMessages(s.tables, call, action.id, action.now);
    RequestStays(s, action, action.call);
    var (t', call') := Execute(s.tables, call, action.id, action.now);
    c, route := call'.pc.conversation, call'.pc.route;
  }

  /** No two calls save the same message. */
  lemma {:induction false} SavedOnce(actions: seq<Action>, i: nat, j: nat, c: Uuid, d: Uuid, route: Route, route': Route)
    requires i < j < |After(actions).calls|
    requires SavedTo(After(actions).calls[i].pc, c, route) && SavedTo(After(actions).calls[j].pc, d, route')
    ensures After(actions).calls[i].request.Send? && After(actions).calls[j].request.Send?
    ensures After(actions).calls[i].request.messageId != After(actions).calls[j].request.messageId
  {
    SavedMessageSays(actions, i, c, route);
    SavedMessageSays(actions, j, d, route');
    var n := |actions| - 1;
    var past, action := actions[..n], actions[n];
    var s := After(past);
    hide After, Inv, Execute, SavedTo, Abort, Unheard;
    assert After(actions) == Next(s, action) by {
      AfterLast(actions);
    }
    WasThere(s, action, i, c, route);
    WasThere(s, action, j, d, route');
    if SavedTo(s.calls[i].pc, c, route) && SavedTo(s.calls[j].pc, d, route') {
      SavedOnce(past, i, j, c, d, route, route');
      RequestStays(s, action, i);
      RequestStays(s, action, j);
    } else if SavedTo(s.calls[i].pc, c, route) {
      SavedMessageSays(past, i, c, route);
      RequestStays(s, action, i);
      NotThereYet(s, action, j, d, route');
    } else {
      SavedMessageSays(past, j, d, route');
      RequestStays(s, action, j);
      NotThereYet(s, action, i, c, route);
    }
  }

  /** A call whose message is saved was there before, and only one call at a time gets on. */
  lemma WasThere(s: State, action: Action, i: nat, c: Uuid, route: Route)
    requires i < |Next(s, action).calls| && SavedTo(Next(s, action).calls[i].pc, c, route)
    ensures i < |s.calls|
    ensures !SavedTo(s.calls[i].pc, c, route) ==> action.Step? && action.call == i
  {
    hide Execute;
  }

  lemma NotThereYet(s: State, action: Action, i: nat, c: Uuid, route: Route)
    requires i < |s.calls| && !SavedTo(s.calls[i].pc, c, route) && action.Step? && action.call == i
    requires SavedTo(Next(s, action).calls[i].pc, c, route)
    ensures s.calls[i].request.Send? && s.calls[i].request.messageId !in s.tables.messages
    ensures Next(s, action).calls[i].request == s.calls[i].request
  {
    hide PairOf, LowRow, HighRow, SelectDirect, InsertConversation, InsertParticipant, InsertGroup, UpdateGroupId;
    hide DeleteParticipant;
  }

  // ---------------------------------------------------------------------------------------------
  // Groups
  // ---------------------------------------------------------------------------------------------

  /** The row that a call which founds a group is about to insert. */
  ghost function RowOf(call: Call): ChatGroup
    requires call.request.FoundGroup? && call.pc.InsertGroupRow?
  {
    ChatGroup(call.request.name, call.request.owner, Some(call.pc.conversation))
  }

  /** What a statement does to the groups: nothing, or the insert of its call's own group under a name that is free. */
  lemma EffectOnGroups(t: Tables, call: Call, id: Uuid, now: int)
    ensures var (t', call') := Execute(t, call, id, now);
            || t'.groups == t.groups
            || (&& call.request.FoundGroup? && call.pc.InsertGroupRow? && id !in t.groups
                && t'.groups == t.groups[id := RowOf(call)]
                && (forall g :: g in t.groups ==> t.groups[g].name != call.request.name)
                && call'.founded == Some(id) && call'.made == call.made)
  {
    hide PairOf, First, Second, LowRow, HighRow, BytesLess, SelectDirect, PairTaken;
    hide InsertConversation, InsertParticipant, UpdateGroupId, SaveMessage, DeleteParticipant;
    OtherTables(t, call, id, now);
  }

  /** Statements on other tables leave the groups alone. */
  lemma OtherTables(t: Tables, call: Call, id: Uuid, now: int)
    ensures forall kind, pair :: var r := InsertConversation(t, id, kind, pair, now);
              r.Success? ==> r.value.groups == t.groups
    ensures forall row :: var r := InsertParticipant(t, row); r.Success? ==> r.value.groups == t.groups
    ensures forall row :: DeleteParticipant(t, row).groups == t.groups
    ensures forall c, g :: var r := UpdateGroupId(t, c, g); r.Success? ==> r.value.groups == t.groups
    ensures forall m, message :: var r := SaveMessage(t, m, message); r.Success? ==> r.value.groups == t.groups
  {
  }

  lemma GroupStepEffect(s: State, action: Action)
    ensures var t, t' := s.tables, Next(s, action).tables;
            || t'.groups == t.groups
            || (&& action.Step? && action.call < |s.calls|
                && var call, call' := s.calls[action.call], Next(s, action).calls[action.call];
                   && call.request.FoundGroup? && call.pc.InsertGroupRow? && action.id !in t.groups
                   && t'.groups == t.groups[action.id := RowOf(call)]
                   && (forall g :: g in t.groups ==> t.groups[g].name != call.request.name)
                   && call'.founded == Some(action.id) && call'.made == call.made && call'.request == call.request)
  {
    hide Execute, Abort;
    if action.Step? && action.call < |s.calls| {
      EffectOnGroups(s.tables, s.calls[action.call], action.id, action.now);
      RequestStays(s, action, action.call);
    }
  }

  /** No two groups have one name. */
  lemma {:induction false} GroupNamesDiffer(actions: seq<Action>, g: Uuid, h: Uuid)
    requires g in After(actions).tables.groups && h in After(actions).tables.groups && g != h
    ensures After(actions).tables.groups[g].name != After(actions).tables.groups[h].name
  {
    var n := |actions| - 1;
    var s := After(actions[..n]);
    hide Next;
    GroupStepEffect(s, actions[n]);
    if g in s.tables.groups && h in s.tables.groups {
      GroupNamesDiffer(actions[..n], g, h);
    }
  }

  /** What a call has inserted stays its own. */
  lemma MadeStays(s: State, action: Action, i: nat)
    requires Inv(s) && i < |s.calls|
    ensures i < |Next(s, action).calls|
    ensures var call, call' := s.calls[i], Next(s, action).calls[i];
            && call'.request == call.request
            && (call.made.Some? ==> call'.made == call.made) && (call.founded.Some? ==> call'.founded == call.founded)
            && (call.made.None? && call'.made.Some? && call.request.FoundGroup? ==> call.request.name != "")
  {
    hide TablesSound, Owned, GroupsOwned, RowsExact, PairOf, SelectDirect, SaveMessage, InsertParticipant, InsertGroup;
    hide UpdateGroupId, DeleteParticipant, InsertConversation, LowRow, HighRow;
    assert CallSound(s.tables, s.calls[i]);
  }

  /** Only a named group gets a conversation. */
  lemma {:induction false} FoundersGiveNames(actions: seq<Action>, i: nat)
    requires i < |After(actions).calls| && After(actions).calls[i].made.Some?
    requires After(actions).calls[i].request.FoundGroup?
    ensures After(actions).calls[i].request.name != ""
  {
    var n := |actions| - 1;
    var s := After(actions[..n]);
    hide Next, Inv;
    if i < |s.calls| {
      EveryRunKeepsInv(actions[..n]);
      MadeStays(s, actions[n], i);
      if s.calls[i].made.Some? {
        FoundersGiveNames(actions[..n], i);
      }
    } else {
      BegunNow(s, actions[n], i);
    }
  }

  /** The group was founded by this call, and its row says what the call asked for. */
  ghost predicate FoundedBy(s: State, i: nat, g: Uuid) {
    && i < |s.calls| && s.calls[i].request.FoundGroup? && s.calls[i].founded == Some(g) && g in s.tables.groups
    && s.tables.groups[g] == ChatGroup(s.calls[i].request.name, s.calls[i].request.owner, s.calls[i].made)
  }

  lemma FoundedStays(s: State, action: Action, i: nat, g: Uuid)
    requires Inv(s) && FoundedBy(s, i, g)
    ensures FoundedBy(Next(s, action), i, g)
  {
    hide Inv, Next;
    GroupStepEffect(s, action);
    MadeStays(s, action, i);
    FoundersHaveMade(s, i);
  }

  lemma FoundedNow(s: State, action: Action, g: Uuid)
    requires Inv(s) && g !in s.tables.groups && g in Next(s, action).tables.groups
    ensures action.Step? && FoundedBy(Next(s, action), action.call, g)
  {
    hide Inv, Next;
    GroupStepEffect(s, action);
    AtInsertHasMade(s, action.call);
    MadeStays(s, action, action.call);
  }

  lemma {:induction false} EveryGroupHasAFounder(actions: seq<Action>, g: Uuid) returns (i: nat)
    requires g in After(actions).tables.groups
    ensures FoundedBy(After(actions), i, g)
  {
    var n := |actions| - 1;
    assert n >= 0;
    hide After, Next, Inv, FoundedBy;
    AfterLast(actions);
    EveryRunKeepsInv(actions[..n]);
    if g in After(actions[..n]).tables.groups {
      i := EveryGroupHasAFounder(actions[..n], g);
      FoundedStays(After(actions[..n]), actions[n], i, g);
    } else {
      i := actions[n].call;
      FoundedNow(After(actions[..n]), actions[n], g);
    }
  }

  /** Every group has the name and the owner that its founder asked for, and the conversation that its founder made. */
  lemma EveryGroupWasFounded(actions: seq<Action>, g: Uuid) returns (i: nat)
    requires g in After(actions).tables.groups
    ensures var calls := After(actions).calls;
            && i < |calls| && calls[i].request.FoundGroup? && calls[i].founded == Some(g)
            && calls[i].request.name != ""
            && var group := After(actions).tables.groups[g];
               && group.name == calls[i].request.name && group.owner == calls[i].request.owner
               && group.conversation == calls[i].made
  {
    hide After, Inv;
    i := EveryGroupHasAFounder(actions, g);
    EveryRunKeepsInv(actions);
    FoundersHaveMade(After(actions), i);
    FoundersGiveNames(actions, i);
  }

  lemma AtInsertHasMade(s: State, i: nat)
    requires Inv(s) && i < |s.calls| && s.calls[i].pc.InsertGroupRow?
    ensures s.calls[i].made == Some(s.calls[i].pc.conversation)
  {
    hide TablesSound, Owned, GroupsOwned, RowsExact;
    assert CallSound(s.tables, s.calls[i]);
  }

  lemma FoundersHaveMade(s: State, i: nat)
    requires Inv(s) && i < |s.calls| && s.calls[i].founded.Some?
    ensures s.calls[i].made.Some?
  {
    hide TablesSound, Owned, GroupsOwned, RowsExact;
    assert CallSound(s.tables, s.calls[i]);
  }

  // ---------------------------------------------------------------------------------------------
  // Leaving a group
  // ---------------------------------------------------------------------------------------------

  /** When the delete of a call that leaves takes effect, the member's row is gone; every other row and every other table
      is as before. */
  lemma LeavingRemoves(actions: seq<Action>, i: nat, c: Uuid, id: Uuid, now: int, heard: bool)
    requires i < |After(actions).calls| && After(actions).calls[i].pc == RemoveMember(c)
    ensures var s, s' := After(actions), Next(After(actions), Step(i, id, now, heard));
            var request := s.calls[i].request;
            && request.Leave?
            && s'.tables == s.tables.(participants := s'.tables.participants)
            && Participant(c, request.member, request.kind) !in s'.tables.participants
            && (forall row :: row != Participant(c, request.member, request.kind) ==>
                  (row in s'.tables.participants <==> row in s.tables.participants))
            && s'.calls[i].pc == if heard then Left else Failed
  {
    hide After, Owned, GroupsOwned, RowsExact, TablesSound;
    EveryRunKeepsInv(actions);
    assert CallSound(After(actions).tables, After(actions).calls[i]);
  }

  /** The row is that of the group's conversation. */
  lemma {:induction false} LeavesTheGroup(actions: seq<Action>, i: nat, c: Uuid)
    requires i < |After(actions).calls| && After(actions).calls[i].pc == RemoveMember(c)
    ensures var s := After(actions); s.calls[i].request.Leave? && InGroup(s.tables, s.calls[i].request.group, c)
  {
    var n := |actions| - 1;
    var s, action := After(actions[..n]), actions[n];
    assert i < |s.calls| by {
      hide Execute;
    }
    EveryRunKeepsInv(actions[..n]);
    EveryRunKeepsInv(actions);
    hide Inv, Next;
    ActionExtends(s, action);
    GroupsStay(s.tables, After(actions).tables);
    RequestStays(s, action, i);
    if s.calls[i].pc == RemoveMember(c) {
      LeavesTheGroup(actions[..n], i, c);
    } else {
      FindsTheGroup(s, action, i, c);
    }
  }

  lemma FindsTheGroup(s: State, action: Action, i: nat, c: Uuid)
    requires i < |s.calls| && s.calls[i].pc != RemoveMember(c)
    requires i < |Next(s, action).calls| && Next(s, action).calls[i].pc == RemoveMember(c)
    ensures s.calls[i].request.Leave? && InGroup(s.tables, s.calls[i].request.group, c)
  {
    hide PairOf, SelectDirect, SaveMessage, InsertParticipant, InsertGroup, UpdateGroupId, InsertConversation;
    hide LowRow, HighRow;
  }

  /** The action is the insert of the owner's row by the call that founds the group. */
  ghost predicate FounderJoins(actions: seq<Action>, k: nat, f: nat, row: Participant) {
    && k < |actions| && actions[k].Step? && actions[k].call == f
    && var calls := After(actions[..k]).calls;
       && f < |calls| && calls[f].request.FoundGroup? && calls[f].request.owner == row.id && row.kind == User
       && calls[f].pc.AddOwner? && calls[f].pc.conversation == row.conversation
  }

  lemma JoinsByFounder(s: State, action: Action, row: Participant)
    requires Inv(s) && IsGroup(s.tables, row.conversation)
    requires row !in s.tables.participants && row in Next(s, action).tables.participants
    ensures action.Step? && action.call < |s.calls|
    ensures var call := s.calls[action.call];
            && call.request.FoundGroup? && call.request.owner == row.id && row.kind == User
            && call.pc.AddOwner? && call.pc.conversation == row.conversation
  {
    hide TablesSound, Owned, GroupsOwned, RowsExact, PairOf, SelectDirect, First, Second, Swapped;
    hide InsertConversation, InsertGroup, UpdateGroupId, SaveMessage;
    var call := s.calls[action.call];
    assert CallSound(s.tables, call);
    TablesOfOthers(s.tables, call, action.id, action.now);
    GroupsHoldNoPair(s.tables, row.conversation);
  }

  lemma GroupsHoldNoPair(t: Tables, c: Uuid)
    requires TablesSound(t) && IsGroup(t, c)
    ensures t.conversations[c].pair.None?
  {
  }

  /** A row that is not among the participants of a group's conversation comes there only by the founder's insert. */
  lemma {:induction false} JoinsOnlyByFounder(actions: seq<Action>, before: nat, row: Participant)
    returns (k: nat, f: nat)
    requires before <= |actions| && IsGroup(After(actions[..before]).tables, row.conversation)
    requires row !in After(actions[..before]).tables.participants && row in After(actions).tables.participants
    ensures before <= k && FounderJoins(actions, k, f, row)
  {
    hide After, Next, Inv, IsGroup;
    var n := |actions| - 1;
    assert before <= n by {
      assert actions[..|actions|] == actions;
    }
    assert actions[..n][..before] == actions[..before];
    AfterLast(actions);
    if row in After(actions[..n]).tables.participants {
      k, f := JoinsOnlyByFounder(actions[..n], before, row);
      assert actions[..n][..k] == actions[..k];
    } else {
      RunExtends(actions[..n], before);
      GroupKindStays(After(actions[..before]).tables, After(actions[..n]).tables, row.conversation);
      EveryRunKeepsInv(actions[..n]);
      JoinsByFounder(After(actions[..n]), actions[n], row);
      k, f := n, actions[n].call;
    }
  }

  lemma GroupKindStays(t: Tables, t': Tables, c: Uuid)
    requires Extends(t, t') && IsGroup(t, c)
    ensures IsGroup(t', c)
  {
  }

  /** A call that has left its group removed the member's row from the group's conversation at some moment of the run, and
      the row is there again only if the group's founder has inserted it since. */
  lemma {:induction false} LeftIsGone(actions: seq<Action>, i: nat) returns (k: nat, c: Uuid)
    requires i < |After(actions).calls| && After(actions).calls[i].pc.Left?
    ensures After(actions).calls[i].request.Leave? && k < |actions|
    ensures var request := After(actions).calls[i].request;
            var row := Participant(c, request.member, request.kind);
            && actions[k].Step? && actions[k].call == i
            && InGroup(After(actions[..k]).tables, request.group, c)
            && row !in After(actions[..k + 1]).tables.participants
            && (row in After(actions).tables.participants ==> exists j, f :: k < j && FounderJoins(actions, j, f, row))
  {
    k, c := LeavesAt(actions, i);
    var request := After(actions).calls[i].request;
    var row := Participant(c, request.member, request.kind);
    hide After, FounderJoins;
    if row in After(actions).tables.participants {
      var j, f := JoinsOnlyByFounder(actions, k + 1, row);
      assert FounderJoins(actions, j, f, row);
    }
  }

  lemma {:induction false} LeavesAt(actions: seq<Action>, i: nat) returns (k: nat, c: Uuid)
    requires i < |After(actions).calls| && After(actions).calls[i].pc.Left?
    ensures After(actions).calls[i].request.Leave? && k < |actions| && actions[k].Step? && actions[k].call == i
    ensures var request := After(actions).calls[i].request;
            && InGroup(After(actions[..k]).tables, request.group, c)
            && Participant(c, request.member, request.kind) !in After(actions[..k + 1]).tables.participants
            && IsGroup(After(actions[..k + 1]).tables, c)
  {
    var n := |actions| - 1;
    assert n >= 0;
    hide After, Next, Inv, InGroup, IsGroup;
    AfterLast(actions);
    var s, action := After(actions[..n]), actions[n];
    WasLeaving(s, action, i);
    RequestStays(s, action, i);
    if s.calls[i].pc.Left? {
      k, c := LeavesAt(actions[..n], i);
      assert actions[..n][..k] == actions[..k] && actions[..n][..k + 1] == actions[..k + 1];
    } else {
      k, c := n, s.calls[i].pc.conversation;
      assert actions[..n + 1] == actions;
      LeavesNow(actions[..n], action, i);
    }
  }

  lemma LeavesNow(actions: seq<Action>, action: Action, i: nat)
    requires i < |After(actions).calls| && After(actions).calls[i].pc.RemoveMember?
    requires action.Step? && action.call == i
    ensures var s, t := After(actions), Next(After(actions), action).tables;
            var call := s.calls[i];
            && call.request.Leave?
            && InGroup(s.tables, call.request.group, call.pc.conversation) && IsGroup(t, call.pc.conversation)
            && Participant(call.pc.conversation, call.request.member, call.request.kind) !in t.participants
  {
    hide After, Next, Inv, InGroup, IsGroup;
    var s := After(actions);
    var c := s.calls[i].pc.conversation;
    LeavesTheGroup(actions, i, c);
    LeavingRemoves(actions, i, c, action.id, action.now, action.heard);
    EveryRunKeepsInv(actions);
    ActionExtends(s, action);
    RemovesFromGroup(s, i, c);
    GroupKindStays(s.tables, Next(s, action).tables, c);
  }

  lemma RemovesFromGroup(s: State, i: nat, c: Uuid)
    requires Inv(s) && i < |s.calls| && s.calls[i].pc == RemoveMember(c)
    ensures IsGroup(s.tables, c)
  {
    assert CallSound(s.tables, s.calls[i]);
  }

  lemma WasLeaving(s: State, action: Action, i: nat)
    requires i < |Next(s, action).calls| && Next(s, action).calls[i].pc.Left?
    ensures i < |s.calls|
    ensures !s.calls[i].pc.Left? ==> s.calls[i].pc.RemoveMember? && action.Step? && action.call == i
  {
    hide PairOf, SelectDirect, SaveMessage, InsertParticipant, InsertGroup, UpdateGroupId, InsertConversation;
    hide LowRow, HighRow, DeleteParticipant;
  }
}

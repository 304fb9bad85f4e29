/**
  Which conversation a message is saved to.

  A message is addressed to an id. Its call looks that id up among the groups, and any error of the look-up counts as
  "not a group", after which the id is taken for a participant. So the look-up decides, and what it found is a fact
  about the run: `FoundGroup`, `MissedGroup` and `LookupFailed` say which of the three happened.
 */
module MessageRouting {
  import opened Wrappers
  import opened Uuids
  import opened Database
  import opened Conversations
  import opened ConversationSafety
  import opened ConversationTheorems
  import S = ConversationService

  // ---------------------------------------------------------------------------------------------
  // The look-up of a call
  // ---------------------------------------------------------------------------------------------

  /** Call `i` is about to look its recipient up. */
  ghost predicate AtLookup(s: State, i: nat) {
    i < |s.calls| && s.calls[i].request.Send? && s.calls[i].pc.SelectRecipient?
  }

  /** The action at `k` is the look-up of call `i`, and the recipient is a group, or is none. */
  ghost predicate LooksUp(actions: seq<Action>, i: nat, k: nat, isGroup: bool) {
    && k < |actions| && actions[k].Step? && actions[k].call == i && actions[k].heard && AtLookup(After(actions[..k]), i)
    && (After(actions[..k]).calls[i].request.to in After(actions[..k]).tables.groups <==> isGroup)
  }

  /** The action makes a statement of call `i` fail, or loses its reply. */
  predicate Fails(action: Action, i: nat) {
    action == Fail(i) || (action.Step? && action.call == i && !action.heard)
  }

  /** The action at `k` makes the look-up of call `i` fail. */
  ghost predicate FailsLookup(actions: seq<Action>, i: nat, k: nat) {
    k < |actions| && Fails(actions[k], i) && AtLookup(After(actions[..k]), i)
  }

  ghost predicate FoundGroup(actions: seq<Action>, i: nat) {
    exists k :: LooksUp(actions, i, k, true)
  }

  ghost predicate MissedGroup(actions: seq<Action>, i: nat) {
    exists k :: LooksUp(actions, i, k, false)
  }

  ghost predicate LookupFailed(actions: seq<Action>, i: nat) {
    exists k :: FailsLookup(actions, i, k)
  }

  lemma SameLookup(actions: seq<Action>, i: nat, k: nat)
    requires k < |actions| - 1
    ensures var past := actions[..|actions| - 1];
            && (LooksUp(actions, i, k, true) <==> LooksUp(past, i, k, true))
            && (LooksUp(actions, i, k, false) <==> LooksUp(past, i, k, false))
            && (FailsLookup(actions, i, k) <==> FailsLookup(past, i, k))
  {
    hide After, AtLookup;
    assert actions[..|actions| - 1][..k] == actions[..k];
  }

  lemma LookupsAreActions(actions: seq<Action>, i: nat)
    ensures forall k: nat :: LooksUp(actions, i, k, true) || LooksUp(actions, i, k, false) ==> k < |actions|
    ensures forall k: nat :: FailsLookup(actions, i, k) ==> k < |actions|
  {
  }

  lemma FoundSnoc(actions: seq<Action>, i: nat)
    requires actions != []
    ensures var n := |actions| - 1;
            FoundGroup(actions, i) <==> FoundGroup(actions[..n], i) || LooksUp(actions, i, n, true)
  {
    hide LooksUp, FailsLookup, After;
    var n := |actions| - 1;
    var past := actions[..n];
    forall k: nat | k < n ensures LooksUp(actions, i, k, true) <==> LooksUp(past, i, k, true) {
      SameLookup(actions, i, k);
    }
    LookupsAreActions(actions, i);
    LookupsAreActions(past, i);
    if k: nat :| LooksUp(past, i, k, true) {
      assert LooksUp(actions, i, k, true);
    }
  }

  lemma MissedSnoc(actions: seq<Action>, i: nat)
    requires actions != []
    ensures var n := |actions| - 1;
            MissedGroup(actions, i) <==> MissedGroup(actions[..n], i) || LooksUp(actions, i, n, false)
  {
    hide LooksUp, FailsLookup, After;
    var n := |actions| - 1;
    var past := actions[..n];
    forall k: nat | k < n ensures LooksUp(actions, i, k, false) <==> LooksUp(past, i, k, false) {
      SameLookup(actions, i, k);
    }
    LookupsAreActions(actions, i);
    LookupsAreActions(past, i);
    if k: nat :| LooksUp(past, i, k, false) {
      assert LooksUp(actions, i, k, false);
    }
  }

  lemma FailedSnoc(actions: seq<Action>, i: nat)
    requires actions != []
    ensures var n := |actions| - 1;
            LookupFailed(actions, i) <==> LookupFailed(actions[..n], i) || FailsLookup(actions, i, n)
  {
    hide LooksUp, FailsLookup, After;
    var n := |actions| - 1;
    var past := actions[..n];
    forall k: nat | k < n ensures FailsLookup(actions, i, k) <==> FailsLookup(past, i, k) {
      SameLookup(actions, i, k);
    }
    LookupsAreActions(actions, i);
    LookupsAreActions(past, i);
    if k: nat :| FailsLookup(past, i, k) {
      assert FailsLookup(actions, i, k);
    }
  }

  lemma LookupSnoc(actions: seq<Action>, i: nat)
    requires actions != []
    ensures var n := |actions| - 1;
            && (FoundGroup(actions, i) <==> FoundGroup(actions[..n], i) || LooksUp(actions, i, n, true))
            && (MissedGroup(actions, i) <==> MissedGroup(actions[..n], i) || LooksUp(actions, i, n, false))
            && (LookupFailed(actions, i) <==> LookupFailed(actions[..n], i) || FailsLookup(actions, i, n))
  {
    hide *;
    FoundSnoc(actions, i);
    MissedSnoc(actions, i);
    FailedSnoc(actions, i);
  }

  lemma NotBegunNotLookedUp(actions: seq<Action>, i: nat)
    requires i >= |After(actions).calls|
    ensures !FoundGroup(actions, i) && !MissedGroup(actions, i) && !LookupFailed(actions, i)
  {
    hide After;
    forall k: nat | k <= |actions| ensures |After(actions[..k]).calls| <= |After(actions).calls| {
      CallsGrow(actions, k);
    }
  }

  /** A call takes its recipient for a group, or has given that up. */
  ghost predicate TakenForGroup(pc: Pc) {
    (pc.Save? || pc.Saved? || pc.SavedUnheard?) && pc.route.ToGroup?
  }

  ghost predicate TakenForParticipant(pc: Pc) {
    || pc.SelectPair? || pc.InsertPair? || Adding(pc)
    || ((pc.Save? || pc.Saved? || pc.SavedUnheard?) && pc.route.ToDirect?)
  }

  /** What one action does to a message's call, as far as its route goes. */
  lemma RouteStep(s: State, action: Action, i: nat)
    requires Inv(s) && i < |s.calls| && s.calls[i].request.Send?
    ensures i < |Next(s, action).calls| && Next(s, action).calls[i].request == s.calls[i].request
    ensures var pc, pc' := s.calls[i].pc, Next(s, action).calls[i].pc;
            var request := s.calls[i].request;
            if pc.SelectRecipient? && action.Step? && action.call == i && action.heard then
              if request.to in s.tables.groups then TakenForGroup(pc') else TakenForParticipant(pc')
            else if pc.SelectRecipient? then if Fails(action, i) then TakenForParticipant(pc') else pc' == pc
            else
              && !pc'.SelectRecipient?
              && (TakenForGroup(pc') ==> TakenForGroup(pc)) && (TakenForParticipant(pc') ==> TakenForParticipant(pc))
  {
    hide CallsSound, Owned, GroupsOwned, RowsExact, PairOf, LowRow, HighRow, First, Second, SelectDirect, BytesLess;
    hide InsertConversation, InsertParticipant, InsertGroup, UpdateGroupId, SaveMessage, DeleteParticipant;
    if action.Step? && action.call == i {
      TargetIsGroup(s.tables, s.calls[i].request.to);
    }
  }

  /** The route of a message is what its one look-up decided. */
  lemma {:induction false} RouteIsTheLookup(actions: seq<Action>, i: nat)
    requires i < |After(actions).calls| && After(actions).calls[i].request.Send?
    ensures var pc := After(actions).calls[i].pc;
            && (pc.SelectRecipient? ==>
                  !FoundGroup(actions, i) && !MissedGroup(actions, i) && !LookupFailed(actions, i))
            && (TakenForGroup(pc) ==>
                  FoundGroup(actions, i) && !MissedGroup(actions, i) && !LookupFailed(actions, i))
            && (TakenForParticipant(pc) ==>
                  !FoundGroup(actions, i) && (MissedGroup(actions, i) <==> !LookupFailed(actions, i)))
  {
    hide Inv, Next, FoundGroup, MissedGroup, LookupFailed;
    var n := |actions| - 1;
    var past, action := actions[..n], actions[n];
    var s := After(past);
    assert After(actions) == Next(s, action);
    LookupSnoc(actions, i);
    if i < |s.calls| {
      RequestStays(s, action, i);
      RouteIsTheLookup(past, i);
      EveryRunKeepsInv(past);
      RouteStep(s, action, i);
    } else {
      NotBegunNotLookedUp(past, i);
      BegunNow(s, action, i);
    }
  }

  // ---------------------------------------------------------------------------------------------
  // The conversation of a message
  // ---------------------------------------------------------------------------------------------

  ghost predicate SavedBy(s: State, i: nat, c: Uuid, route: Route) {
    i < |s.calls| && s.calls[i].request.Send? && SavedTo(s.calls[i].pc, c, route)
  }

  /** Where a saved message is. */
  lemma SavedWhere(actions: seq<Action>, i: nat, c: Uuid, route: Route)
    requires SavedBy(After(actions), i, c, route)
    ensures var t, request := After(actions).tables, After(actions).calls[i].request;
            if route.ToGroup? then InGroup(t, request.to, c) else HoldsPair(t, c, request)
  {
    hide After, Owned, GroupsOwned, RowsExact, TablesSound, PairOf, InGroup, IsGroup, HoldsPair;
    EveryRunKeepsInv(actions);
    assert CallSound(After(actions).tables, After(actions).calls[i]);
  }

  /** A conversation of a group is of no pair. */
  lemma GroupHasNoPair(actions: seq<Action>, g: Uuid, c: Uuid)
    requires InGroup(After(actions).tables, g, c)
    ensures c in After(actions).tables.conversations && After(actions).tables.conversations[c].pair.None?
  {
    hide After, CallsSound, Owned, GroupsOwned, RowsExact, BytesLess;
    EveryRunKeepsInv(actions);
  }

  lemma RouteOfConversation(actions: seq<Action>, i: nat, c: Uuid, route: Route)
    requires SavedBy(After(actions), i, c, route)
    ensures InGroup(After(actions).tables, After(actions).calls[i].request.to, c) <==> route.ToGroup?
  {
    hide After, PairOf, InGroup;
    SavedWhere(actions, i, c, route);
    if InGroup(After(actions).tables, After(actions).calls[i].request.to, c) {
      GroupHasNoPair(actions, After(actions).calls[i].request.to, c);
    }
  }

  /** A message is saved to the conversation of the group it is addressed to exactly when its look-up ran once the group
      existed, and did not fail. */
  lemma SavedToGroupIff(actions: seq<Action>, i: nat, c: Uuid, route: Route)
    requires SavedBy(After(actions), i, c, route)
    ensures InGroup(After(actions).tables, After(actions).calls[i].request.to, c) <==> FoundGroup(actions, i)
    ensures route.ToGroup? <==> FoundGroup(actions, i)
  {
    hide After, FoundGroup, MissedGroup, LookupFailed;
    RouteOfConversation(actions, i, c, route);
    RouteIsTheLookup(actions, i);
  }

  lemma ActionExtends(s: State, action: Action)
    requires Inv(s)
    ensures Extends(s.tables, Next(s, action).tables)
  {
    hide TablesSound, CallSound, Execute, Owned, GroupsOwned, RowsExact;
    if action.Step? && action.call < |s.calls| {
      assert CallSound(s.tables, s.calls[action.call]);
      ExecuteSafe(s.tables, s.calls[action.call], action.id, action.now);
    }
  }

  lemma {:induction false} RunExtends(actions: seq<Action>, k: nat)
    requires k <= |actions|
    ensures Extends(After(actions[..k]).tables, After(actions).tables)
  {
    if k == |actions| {
      assert actions[..k] == actions;
    } else {
      hide Inv, Next;
      var n := |actions| - 1;
      RunExtends(actions[..n], k);
      assert actions[..n][..k] == actions[..k];
      EveryRunKeepsInv(actions[..n]);
      ActionExtends(After(actions[..n]), actions[n]);
    }
  }

  /** A look-up that begins after the group exists does not miss it. */
  lemma ExistingGroupIsNotMissed(actions: seq<Action>, begun: nat, i: nat)
    requires begun <= |actions| && i < |After(actions).calls| && After(actions).calls[i].request.Send?
    requires |After(actions[..begun]).calls| <= i
    requires After(actions).calls[i].request.to in After(actions[..begun]).tables.groups
    ensures !MissedGroup(actions, i)
  {
    hide After, Extends;
    if k: nat :| LooksUp(actions, i, k, false) {
      var early := actions[..k];
      if k < begun {
        assert actions[..begun][..k] == early;
        CallsGrow(actions[..begun], k);
      } else {
        assert early[..begun] == actions[..begun];
        RunExtends(early, begun);
        GroupsStay(After(actions[..begun]).tables, After(early).tables);
        RequestsStay(actions, k, i);
      }
    }
  }

  lemma GroupsStay(t: Tables, t': Tables)
    requires Extends(t, t')
    ensures forall g :: g in t.groups ==> g in t'.groups
    ensures forall g, c :: InGroup(t, g, c) ==> InGroup(t', g, c)
  {
  }

  lemma AfterLast(actions: seq<Action>)
    requires actions != []
    ensures After(actions) == Next(After(actions[..|actions| - 1]), actions[|actions| - 1])
  {
  }

  lemma {:induction false} RequestsStay(actions: seq<Action>, k: nat, i: nat)
    requires k <= |actions| && i < |After(actions[..k]).calls|
    ensures i < |After(actions).calls| && After(actions).calls[i].request == After(actions[..k]).calls[i].request
  {
    hide Next, After;
    if k == |actions| {
      assert actions[..k] == actions;
    } else {
      var n := |actions| - 1;
      assert actions[..n][..k] == actions[..k];
      RequestsStay(actions[..n], k, i);
      AfterLast(actions);
      RequestStays(After(actions[..n]), actions[n], i);
    }
  }

  /** A message to a group that existed before the message was sent is saved to the group's conversation exactly when its
      look-up did not fail. */
  lemma ExistingGroupIff(actions: seq<Action>, begun: nat, i: nat, c: Uuid, route: Route)
    requires SavedBy(After(actions), i, c, route)
    requires begun <= |actions| && |After(actions[..begun]).calls| <= i
    requires After(actions).calls[i].request.to in After(actions[..begun]).tables.groups
    ensures InGroup(After(actions).tables, After(actions).calls[i].request.to, c) <==> !LookupFailed(actions, i)
  {
    hide After, FoundGroup, MissedGroup, LookupFailed;
    RouteIsTheLookup(actions, i);
    RouteOfConversation(actions, i, c, route);
    ExistingGroupIsNotMissed(actions, begun, i);
  }

  // ---------------------------------------------------------------------------------------------
  // Messages in one conversation
  // ---------------------------------------------------------------------------------------------

  ghost predicate SameAddress(x: Request, y: Request, route: Route, route': Route)
    requires x.Send? && y.Send?
  {
    || (route.ToGroup? && route'.ToGroup? && x.to == y.to)
    || (route.ToDirect? && route'.ToDirect? && {x.from, x.to} == {y.from, y.to})
  }

  /** Two persisted messages are in one conversation exactly when both went to the same group, or both went to the same
      unordered pair of participants. */
  lemma Routing(actions: seq<Action>, i: nat, j: nat, c: Uuid, d: Uuid, route: Route, route': Route)
    requires SavedBy(After(actions), i, c, route) && SavedBy(After(actions), j, d, route')
    ensures var s := After(actions);
            c == d <==> SameAddress(s.calls[i].request, s.calls[j].request, route, route')
  {
    hide After, TextLess, ToString, Canonical, InGroup;
    SavedWhere(actions, i, c, route);
    SavedWhere(actions, j, d, route');
    var t := After(actions).tables;
    var x, y := After(actions).calls[i].request, After(actions).calls[j].request;
    CanonicalInjective(x.from, x.to, y.from, y.to);
    if route.ToGroup? {
      GroupHasNoPair(actions, x.to, c);
    }
    if route'.ToGroup? {
      GroupHasNoPair(actions, y.to, d);
    }
    if route.ToGroup? && route'.ToGroup? {
      GroupsAreApart(actions, x.to, y.to, c, d);
    }
    if route.ToDirect? && route'.ToDirect? && PairOf(x) == PairOf(y) {
      PairsAreApart(actions, c, d, PairOf(x));
    }
  }

  lemma GroupsAreApart(actions: seq<Action>, g: Uuid, h: Uuid, c: Uuid, d: Uuid)
    requires InGroup(After(actions).tables, g, c) && InGroup(After(actions).tables, h, d)
    ensures c == d <==> g == h
  {
    hide After;
    GroupsAndConversationsMatch(actions);
  }

  lemma PairsAreApart(actions: seq<Action>, c: Uuid, d: Uuid, pair: Pair)
    requires var t := After(actions).tables;
             && c in t.conversations && t.conversations[c].pair == Some(pair)
             && d in t.conversations && t.conversations[d].pair == Some(pair)
    ensures c == d
  {
    hide After, CallsSound, Owned, GroupsOwned, RowsExact, BytesLess;
    EveryRunKeepsInv(actions);
  }

  /** For any two persisted messages: when a look-up found a group, they are in one conversation exactly when both did and
      the groups are the same; otherwise exactly when they are between the same two ids. */
  lemma RoutingByLookup(actions: seq<Action>, i: nat, j: nat, c: Uuid, d: Uuid, route: Route, route': Route)
    requires SavedBy(After(actions), i, c, route) && SavedBy(After(actions), j, d, route')
    ensures var x, y := After(actions).calls[i].request, After(actions).calls[j].request;
            c == d <==>
              if FoundGroup(actions, i) || FoundGroup(actions, j)
              then FoundGroup(actions, i) && FoundGroup(actions, j) && x.to == y.to
              else {x.from, x.to} == {y.from, y.to}
  {
    hide After, FoundGroup;
    SavedToGroupIff(actions, i, c, route);
    SavedToGroupIff(actions, j, d, route');
    Routing(actions, i, j, c, d, route, route');
  }

  /** A recipient that is a group was found as one. */
  ghost predicate NotMistaken(actions: seq<Action>, i: nat)
    requires i < |After(actions).calls| && After(actions).calls[i].request.Send?
  {
    After(actions).calls[i].request.to in After(actions).tables.groups ==> FoundGroup(actions, i)
  }

  /** A group that was found is still there. */
  lemma FoundIsGroup(actions: seq<Action>, i: nat)
    requires i < |After(actions).calls| && FoundGroup(actions, i)
    ensures After(actions).calls[i].request.Send?
    ensures After(actions).calls[i].request.to in After(actions).tables.groups
  {
    hide After, Extends;
    var k: nat :| LooksUp(actions, i, k, true);
    RunExtends(actions, k);
    GroupsStay(After(actions[..k]).tables, After(actions).tables);
    RequestsStay(actions, k, i);
  }

  /** When no look-up missed its group or failed, senders and recipients alone decide. */
  lemma RoutingByRecipient(actions: seq<Action>, i: nat, j: nat, c: Uuid, d: Uuid, route: Route, route': Route)
    requires SavedBy(After(actions), i, c, route) && SavedBy(After(actions), j, d, route')
    requires NotMistaken(actions, i) && NotMistaken(actions, j)
    ensures var s := After(actions);
            var x, y := s.calls[i].request, s.calls[j].request;
            c == d <==>
              if x.to in s.tables.groups || y.to in s.tables.groups then x.to == y.to
              else {x.from, x.to} == {y.from, y.to}
  {
    hide After, FoundGroup;
    if FoundGroup(actions, i) {
      FoundIsGroup(actions, i);
    }
    if FoundGroup(actions, j) {
      FoundIsGroup(actions, j);
    }
    RoutingByLookup(actions, i, j, c, d, route, route');
  }

  /** Two messages to one group, both sent after it existed, are in one conversation exactly when both look-ups went
      through, or both failed and the messages are from the same sender. */
  lemma SameGroupIff(actions: seq<Action>, begun: nat, i: nat, j: nat, c: Uuid, d: Uuid, route: Route, route': Route)
    requires SavedBy(After(actions), i, c, route) && SavedBy(After(actions), j, d, route')
    requires After(actions).calls[i].request.to == After(actions).calls[j].request.to
    requires begun <= |actions| && |After(actions[..begun]).calls| <= i && |After(actions[..begun]).calls| <= j
    requires After(actions).calls[i].request.to in After(actions[..begun]).tables.groups
    ensures var x, y := After(actions).calls[i].request, After(actions).calls[j].request;
            c == d <==>
              (LookupFailed(actions, i) || LookupFailed(actions, j) ==>
                 LookupFailed(actions, i) && LookupFailed(actions, j) && x.from == y.from)
  {
    hide After, FoundGroup, LookupFailed, InGroup;
    ExistingGroupIff(actions, begun, i, c, route);
    ExistingGroupIff(actions, begun, j, d, route');
    RouteOfConversation(actions, i, c, route);
    RouteOfConversation(actions, j, d, route');
    Routing(actions, i, j, c, d, route, route');
    var x, y := After(actions).calls[i].request, After(actions).calls[j].request;
    if {x.from, x.to} == {y.from, y.to} {
      assert x.from in {y.from, y.to} && y.from in {x.from, x.to};
    }
  }

  // ---------------------------------------------------------------------------------------------
  // A failed look-up
  // ---------------------------------------------------------------------------------------------

  /** A message, and what the generator and the clock hand out to its call. */
  datatype Sending = Sending(request: Request, supply: S.Supply)

  /** Nobody stands in the way of a direct conversation between sender and recipient. */
  ghost predicate OpensDirect(t: Tables, m: Sending) {
    && m.request.Send? && m.request.from != m.request.to && m.request.from != NIL && m.request.to != NIL
    && !PairTaken(t, PairOf(m.request)) && m.supply.conversationId !in t.conversations
    && m.request.messageId !in t.messages
  }

  ghost predicate CanBeMisrouted(t: Tables, m: Sending) {
    OpensDirect(t, m) && m.request.to in t.groups
  }

  /** Once the recipient is taken for a participant, the call opens a direct conversation with it and saves the message
      there. */
  lemma SavesToNewDirect(t: Tables, m: Sending)
    requires OpensDirect(t, m)
    ensures var c := m.supply.conversationId;
            var (t', call) := S.Alone(t, Start(m.request).(pc := SelectPair), m.supply);
            && call.pc == Saved(c, ToDirect) && call.request == m.request
            && t'.messages == t.messages[m.request.messageId := MessageOf(m.request, c)] && t'.groups == t.groups
            && HoldsPair(t', c, m.request)
  {
    hide S.Alone, S.NextAlone, TextLess, ToString, BytesLess, SelectDirect, Canonical;
    var request, supply := m.request, m.supply;
    var c := supply.conversationId;
    CanonicalPair(request.from, request.to);
    var call := Start(request).(pc := SelectPair);
    S.SelectsPair(t, call, supply);
    call := call.(pc := InsertPair);
    S.InsertsPair(t, call, supply);
    var inserted := InsertConversation(t, c, Direct, Some(PairOf(request)), supply.now).value;
    call := call.(pc := AddLow(c), made := Some(c));
    S.AddsRow(inserted, call, supply, c);
    var added := InsertParticipant(inserted, LowRow(request, c)).value;
    call := call.(pc := AddHigh(c), progress := 1);
    S.AddsRow(added, call, supply, c);
    var complete := InsertParticipant(added, HighRow(request, c)).value;
    call := call.(pc := Save(c, ToDirect), progress := 2);
    S.Saves(complete, call, supply, c, ToDirect);
    S.EndedStays(SaveMessage(complete, request.messageId, MessageOf(request, c)).value,
                 call.(pc := Saved(c, ToDirect)), supply);
  }

  /** In every reachable state with a group, whoever has no conversation with the group's id can have a message to the
      group saved elsewhere: its look-up fails, and the group is taken for a participant. */
  lemma FailedLookupMisroutes(actions: seq<Action>, m: Sending) returns (more: seq<Action>)
    requires CanBeMisrouted(After(actions).tables, m)
    ensures var s, i := After(actions + [Begin(m.request), Fail(|After(actions).calls|)] + more), |After(actions).calls|;
            && SavedBy(s, i, m.supply.conversationId, ToDirect) && s.calls[i].request == m.request
            && s.calls == After(actions).calls + [s.calls[i]]
            && m.request.to in s.tables.groups && !InGroup(s.tables, m.request.to, m.supply.conversationId)
  {
    hide S.Alone, CanBeMisrouted, OpensDirect, HoldsPair, Next, InGroup;
    var s, i := After(actions), |After(actions).calls|;
    IsAGroup(s.tables, m);
    RunSnoc(actions, Begin(m.request));
    var begun := actions + [Begin(m.request)];
    RunSnoc(begun, Fail(i));
    var failed := begun + [Fail(i)];
    assert failed == actions + [Begin(m.request), Fail(i)];
    BeginsAndFails(s, m.request);
    SavesToNewDirect(s.tables, m);
    more := S.RestOfRun(failed, i, m.supply);
    var end := failed + more;
    RouteOfConversation(end, i, m.supply.conversationId, ToDirect);
    assert end[..|actions|] == actions;
    RunExtends(end, |actions|);
    GroupsStay(s.tables, After(end).tables);
  }

  lemma IsAGroup(t: Tables, m: Sending)
    requires CanBeMisrouted(t, m)
    ensures OpensDirect(t, m) && m.request.Send? && m.request.to in t.groups
  {
  }

  lemma BeginsAndFails(s: State, request: Request)
    requires request.Send?
    ensures var s' := Next(Next(s, Begin(request)), Fail(|s.calls|));
            s'.tables == s.tables && s'.calls == s.calls + [Start(request).(pc := SelectPair)]
  {
  }
}

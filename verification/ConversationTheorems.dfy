/** The guarantees of the conversation service, for every reachable state. */
module ConversationTheorems {
  import opened Wrappers
  import opened Uuids
  import opened Database
  import opened Conversations
  import opened ConversationSafety

  lemma {:induction false} EveryRunKeepsInv(actions: seq<Action>)
    ensures Inv(After(actions))
  {
    if actions != [] {
      var before, action := After(actions[..|actions| - 1]), actions[|actions| - 1];
      EveryRunKeepsInv(actions[..|actions| - 1]);
      hide Inv;
      match action {
        case Begin(request) => BeginKeepsInv(before, request);
        case Fail(i) => FailKeepsInv(before, i);
        case Step(i, id, now, heard) => StepKeepsInv(before, i, id, now, heard);
      }
    }
  }

  lemma StepKeepsInv(s: State, i: nat, id: Uuid, now: int, heard: bool)
    requires Inv(s)
    ensures Inv(Next(s, Step(i, id, now, heard)))
  {
    if i < |s.calls| {
      hide TablesSound, CallsSound, Owned, GroupsOwned, RowsExact, Next;
      StepKeepsCalls(s, i, id, now, heard);
      StepKeepsGroups(s, i, id, now, heard);
      StepKeepsRows(s, i, id, now, heard);
    }
  }

  // ---------------------------------------------------------------------------------------------
  // Results are final
  // ---------------------------------------------------------------------------------------------

  lemma EndedStays(s: State, action: Action, i: nat)
    requires i < |s.calls| && Ended(s.calls[i].pc)
    ensures i < |Next(s, action).calls| && Next(s, action).calls[i] == s.calls[i]
  {
  }

  /** A call that has returned is still there, with the same result, however the run goes on. */
  lemma {:induction false} ResultsAreFinal(actions: seq<Action>, more: seq<Action>, i: nat)
    requires i < |After(actions).calls| && Ended(After(actions).calls[i].pc)
    ensures i < |After(actions + more).calls| && After(actions + more).calls[i] == After(actions).calls[i]
  {
    if more == [] {
      assert actions + more == actions;
    } else {
      ResultsAreFinal(actions, more[..|more| - 1], i);
      assert (actions + more)[..|actions + more| - 1] == actions + more[..|more| - 1];
      EndedStays(After(actions + more[..|more| - 1]), more[|more| - 1], i);
    }
  }

  // ---------------------------------------------------------------------------------------------
  // One direct conversation for a pair
  // ---------------------------------------------------------------------------------------------

  ghost predicate DirectOf(t: Tables, c: Uuid, a: Uuid, b: Uuid) {
    && c in t.conversations && t.conversations[c].kind.Direct? && t.conversations[c].pair.Some?
    && {t.conversations[c].pair.value.low, t.conversations[c].pair.value.high} == {a, b}
  }

  /** No reachable state has two direct conversations for one unordered pair, or one of a participant with itself. */
  lemma OneConversationPerPair(actions: seq<Action>, c: Uuid, d: Uuid, a: Uuid, b: Uuid)
    requires DirectOf(After(actions).tables, c, a, b) && DirectOf(After(actions).tables, d, a, b)
    ensures c == d && a != b
  {
    hide After, CallsSound, Owned, GroupsOwned, RowsExact, BytesLessFrom, TextLess, ToString;
    EveryRunKeepsInv(actions);
    var t := After(actions).tables;
    var p, q := t.conversations[c].pair.value, t.conversations[d].pair.value;
    SmallerFirst(p.low, p.high);
    SmallerFirst(q.low, q.high);
    CanonicalInjective(p.low, p.high, q.low, q.high);
  }

  lemma SmallerFirst(low: Uuid, high: Uuid)
    requires BytesLess(low, high)
    ensures Canonical(low, high) == Pair(low, high) && low != high
  {
    hide TextLess, ToString, BytesLessFrom;
    CanonicalPair(low, high);
    OrderAgrees(high, low);
    BytesTrichotomy(low, high, 0);
  }

  ghost predicate OpenedFor(call: Call, a: Uuid, b: Uuid, c: Uuid) {
    call.request.OpenDirect? && {call.request.id1, call.request.id2} == {a, b} && call.pc == Opened(c)
  }

  /** A message between the two was saved to this conversation, which its call had looked for as theirs. */
  ghost predicate SentBetween(call: Call, a: Uuid, b: Uuid, c: Uuid) {
    call.request.Send? && {call.request.from, call.request.to} == {a, b} && SavedTo(call.pc, c, ToDirect)
  }

  /** All calls that return a conversation for one pair, and all direct messages between the two, in either order and at
      any time of a run, are about the same conversation, and it is the direct conversation of that pair. */
  lemma AllOpenTheSame(actions: seq<Action>, i: nat, j: nat, a: Uuid, b: Uuid, c: Uuid, d: Uuid)
    requires i < |After(actions).calls| && j < |After(actions).calls|
    requires OpenedFor(After(actions).calls[i], a, b, c) || SentBetween(After(actions).calls[i], a, b, c)
    requires OpenedFor(After(actions).calls[j], a, b, d) || SentBetween(After(actions).calls[j], a, b, d)
    ensures c == d && DirectOf(After(actions).tables, c, a, b)
  {
    hide After, Owned, GroupsOwned, RowsExact, BytesLess, TextLess, ToString, Canonical;
    EveryRunKeepsInv(actions);
    var s := After(actions);
    assert CallSound(s.tables, s.calls[i]) && CallSound(s.tables, s.calls[j]);
    var x, y := s.calls[i].request, s.calls[j].request;
    CanonicalInjective(First(x).0, Second(x).0, First(y).0, Second(y).0);
    CanonicalPair(First(x).0, Second(x).0);
  }

  /** The insert of a direct conversation goes through exactly when the generated id is new, the pair is not taken and
      the two participants differ; otherwise the call fails and nothing changes. A call that loses the race thus gets
      an error, not the winner's conversation. */
  lemma InsertRace(t: Tables, call: Call, id: Uuid, now: int)
    requires Pairs(call.request) && call.pc.InsertPair?
    ensures var (t', call') := Execute(t, call, id, now);
            var a, b := First(call.request).0, Second(call.request).0;
            if id !in t.conversations && !PairTaken(t, Canonical(a, b)) && a != b
            then call'.pc == AddLow(id) && DirectOf(t', id, a, b)
            else call'.pc == Failed && t' == t
  {
    hide TextLess, ToString, BytesLess;
    CanonicalPair(First(call.request).0, Second(call.request).0);
  }

  // ---------------------------------------------------------------------------------------------
  // Participants of a direct conversation
  // ---------------------------------------------------------------------------------------------

  /** Every direct conversation has one maker, a call for its pair, and its participant rows are exactly the ones that
      the maker has inserted: the lower participant's first, then the higher one's. */
  lemma DirectRowsAreTheMakers(actions: seq<Action>, c: Uuid, row: Participant)
    requires c in After(actions).tables.conversations && After(actions).tables.conversations[c].kind.Direct?
    requires row.conversation == c
    ensures var s := After(actions);
            && Owned(s) && Pairs(Maker(s, c).request) && HoldsPair(s.tables, c, Maker(s, c).request)
            && (row in s.tables.participants <==>
                  || (row == LowRow(Maker(s, c).request, c) && Maker(s, c).progress >= 1)
                  || (row == HighRow(Maker(s, c).request, c) && Maker(s, c).progress >= 2))
  {
    hide After, GroupsOwned, PairOf, LowRow, HighRow;
    EveryRunKeepsInv(actions);
    var s := After(actions);
    assert CallSound(s.tables, Maker(s, c));
  }

  /** The two rows carry the two ids of the request, each with the kind the caller paired with it. */
  lemma RowsKeepTheKinds(request: Request, c: Uuid)
    requires Pairs(request)
    ensures {(LowRow(request, c).id, LowRow(request, c).kind), (HighRow(request, c).id, HighRow(request, c).kind)}
         == {First(request), Second(request)}
  {
  }

  /** Whoever returns a direct conversation, both participants are in it exactly when its maker has run both inserts. */
  lemma CompleteIffMakerWasThrough(actions: seq<Action>, c: Uuid)
    requires c in After(actions).tables.conversations && After(actions).tables.conversations[c].kind.Direct?
    ensures var s := After(actions);
            Owned(s) && Pairs(Maker(s, c).request) &&
            (Maker(s, c).progress >= 2 <==>
               LowRow(Maker(s, c).request, c) in s.tables.participants
               && HighRow(Maker(s, c).request, c) in s.tables.participants)
  {
    EveryRunKeepsInv(actions);
    var s := After(actions);
    assert CallSound(s.tables, Maker(s, c));
    var request := Maker(s, c).request;
    DirectRowsAreTheMakers(actions, c, LowRow(request, c));
    DirectRowsAreTheMakers(actions, c, HighRow(request, c));
    PairDiffers(s.tables, c, request);
  }

  lemma {:induction false} CallsGrow(actions: seq<Action>, k: nat)
    requires k <= |actions|
    ensures |After(actions[..k]).calls| <= |After(actions).calls|
  {
    if k == |actions| {
      assert actions[..k] == actions;
    } else {
      var n := |actions| - 1;
      CallsGrow(actions[..n], k);
      assert actions[..n][..k] == actions[..k];
    }
  }

  ghost predicate Adding(pc: Pc) {
    pc.AddLow? || pc.AddHigh?
  }

  /** The action makes call `i` end before its second insert of a participant has taken effect: an insert of a
      participant fails, or the reply to the insert of the conversation or of the first participant is lost. */
  ghost predicate BreaksOff(s: State, action: Action, i: nat) {
    && i < |s.calls|
    && (|| (action == Fail(i) && Adding(s.calls[i].pc))
        || (action.Step? && action.call == i && !action.heard
            && (s.calls[i].pc.InsertPair? || s.calls[i].pc.AddLow?)))
  }

  ghost predicate FailsAdding(actions: seq<Action>, i: nat, k: nat) {
    k < |actions| && BreaksOff(After(actions[..k]), actions[k], i)
  }

  ghost predicate FailedAdding(actions: seq<Action>, i: nat) {
    exists k :: FailsAdding(actions, i, k)
  }

  lemma FailedAddingSnoc(actions: seq<Action>, i: nat)
    requires actions != []
    ensures var n := |actions| - 1;
            FailedAdding(actions, i) <==> FailedAdding(actions[..n], i) || FailsAdding(actions, i, n)
  {
    hide After, BreaksOff;
    var n := |actions| - 1;
    forall k | 0 <= k < n ensures FailsAdding(actions, i, k) <==> FailsAdding(actions[..n], i, k) {
      assert actions[..n][..k] == actions[..k];
    }
    if k :| FailsAdding(actions[..n], i, k) {
      assert FailsAdding(actions, i, k);
    }
  }

  /** A call that has inserted a direct conversation has both participants in it, unless it is at one of the two inserts
      or failed at one. */
  lemma {:induction false} AddingIsProgress(actions: seq<Action>, i: nat)
    requires i < |After(actions).calls| && Pairs(After(actions).calls[i].request)
    ensures var call := After(actions).calls[i];
            if call.made.None? then call.pc.Failed? || !FailedAdding(actions, i)
            else call.progress < 2 <==> Adding(call.pc) || FailedAdding(actions, i)
    ensures Adding(After(actions).calls[i].pc) ==> !FailedAdding(actions, i)
  {
    hide Inv, Next, Adding, FailedAdding, BreaksOff;
    var n := |actions| - 1;
    var past, action := actions[..n], actions[n];
    var s := After(past);
    assert After(actions) == Next(s, action);
    FailedAddingSnoc(actions, i);
    if i < |s.calls| {
      RequestStays(s, action, i);
      AddingIsProgress(past, i);
      EveryRunKeepsInv(past);
      AddingStep(s, action, i);
    } else {
      NotBegunNotFailed(past, i);
      BegunNow(s, action, i);
      assert !BreaksOff(s, action, i) by {
        NotBegunDoesNotBreak(s, action, i);
      }
    }
  }

  lemma NotBegunDoesNotBreak(s: State, action: Action, i: nat)
    requires i >= |s.calls|
    ensures !BreaksOff(s, action, i)
  {
  }

  lemma NotBegunNotFailed(actions: seq<Action>, i: nat)
    requires i >= |After(actions).calls|
    ensures !FailedAdding(actions, i)
  {
    hide Adding, After;
    if k :| FailsAdding(actions, i, k) {
      CallsGrow(actions, k);
    }
  }

  lemma BegunNow(s: State, action: Action, i: nat)
    requires |s.calls| <= i < |Next(s, action).calls|
    ensures action.Begin? && i == |s.calls| && Next(s, action).calls[i] == Start(action.request)
    ensures Next(s, action).calls[i].made.None? && !Adding(Next(s, action).calls[i].pc)
  {
    hide Execute;
  }

  lemma RequestStays(s: State, action: Action, i: nat)
    requires i < |s.calls|
    ensures i < |Next(s, action).calls| && Next(s, action).calls[i].request == s.calls[i].request
  {
    hide PairOf, LowRow, HighRow, SelectDirect, InsertConversation, InsertParticipant, InsertGroup, UpdateGroupId;
    hide SaveMessage, DeleteParticipant;
  }

  /** How one action moves a call through its two inserts. */
  lemma AddingStep(s: State, action: Action, i: nat)
    requires Inv(s) && i < |s.calls| && Pairs(s.calls[i].request)
    ensures i < |Next(s, action).calls|
    ensures var call, call' := s.calls[i], Next(s, action).calls[i];
            && (call.made.Some? ==> call'.made.Some?)
            && (call.made.None? && call'.made.None? ==>
                  !Adding(call'.pc) && (call'.pc.Failed? || (!call.pc.Failed? && !BreaksOff(s, action, i))))
            && (call.made.None? && call'.made.Some? ==>
                  !call.pc.Failed? && call'.progress == 0 && (BreaksOff(s, action, i) <==> !Adding(call'.pc)))
            && (call.made.Some? && Adding(call.pc) ==>
                  if BreaksOff(s, action, i) then call'.progress < 2 && !Adding(call'.pc)
                  else call'.progress < 2 <==> Adding(call'.pc))
            && (call.made.Some? && !Adding(call.pc) ==>
                  !BreaksOff(s, action, i) && call'.progress == call.progress && !Adding(call'.pc))
  {
    hide TablesSound, Owned, GroupsOwned, RowsExact, PairOf, Swapped, SelectDirect, SaveMessage;
    hide HoldsPair, InGroup, IsGroup, SavedSound, First, Second;
    assert CallSound(s.tables, s.calls[i]);
    if s.calls[i].made.Some? {
      MadeIsThere(s.tables, s.calls[i]);
    }
  }

  lemma MadeIsThere(t: Tables, call: Call)
    requires CallSound(t, call) && call.made.Some?
    ensures call.made.value in t.conversations
  {
  }

  /** Both participants are in a direct conversation exactly when the call that inserted it is not on its way to insert
      them, whether it goes on or has stopped there, and did not break off on that way. */
  lemma CompleteIffMakerWentOn(actions: seq<Action>, c: Uuid)
    requires c in After(actions).tables.conversations && After(actions).tables.conversations[c].kind.Direct?
    ensures var s := After(actions);
            && Owned(s) && Pairs(Maker(s, c).request)
            && (LowRow(Maker(s, c).request, c) in s.tables.participants
                && HighRow(Maker(s, c).request, c) in s.tables.participants
                <==> !Adding(Maker(s, c).pc) && !FailedAdding(actions, s.maker[c]))
  {
    hide After, LowRow, HighRow, PairOf, TablesSound, CallsSound, GroupsOwned, RowsExact, Adding, FailedAdding;
    CompleteIffMakerWasThrough(actions, c);
    EveryRunKeepsInv(actions);
    AddingIsProgress(actions, After(actions).maker[c]);
  }

  /** The gap that a stopped maker leaves: for any two participants there is a run in which one call inserts their
      conversation and stops, and a second call returns that conversation while nobody is in it. */
  lemma StoppedMakerLeavesGap(a: Uuid, b: Uuid, kindA: Kind, kindB: Kind, c: Uuid, now: int)
    returns (actions: seq<Action>)
    requires a != b && a != NIL && b != NIL
    ensures var s := After(actions);
            |s.calls| == 2 && OpenedFor(s.calls[1], a, b, c) && s.tables.participants == {}
  {
    hide Next;
    actions := [];
    var first, second := OpenDirect(a, b, kindA, kindB), OpenDirect(b, a, kindB, kindA);
    RunSnoc(actions, Begin(first));
    actions := actions + [Begin(first)];
    RunSnoc(actions, Step(0, c, now));
    actions := actions + [Step(0, c, now)];
    RunSnoc(actions, Step(0, c, now));
    actions := actions + [Step(0, c, now)];
    MakerStops(first, c, now);
    RunSnoc(actions, Begin(second));
    actions := actions + [Begin(second)];
    RunSnoc(actions, Step(1, c, now));
    var s := After(actions[..|actions| - 1]);
    assert actions[..|actions| - 1] + [Begin(second)] == actions;
    CanonicalPair(a, b);
    FoundAgain(s, second, c, now);
    actions := actions + [Step(1, c, now)];
  }

  /** One call that selects nothing and inserts. */
  lemma MakerStops(request: Request, c: Uuid, now: int)
    requires request.OpenDirect? && request.id1 != request.id2 && request.id1 != NIL && request.id2 != NIL
    ensures var s := Next(Next(Next(State(EMPTY, [], map[], []), Begin(request)), Step(0, c, now)), Step(0, c, now));
            && |s.calls| == 1 && s.tables.participants == {}
            && s.tables.conversations.Keys == {c} && s.tables.conversations[c].pair == Some(PairOf(request))
  {
    hide TextLess, ToString, BytesLess, Canonical;
    CanonicalPair(request.id1, request.id2);
    var begun := Next(State(EMPTY, [], map[], []), Begin(request));
    var selected := Next(begun, Step(0, c, now));
    assert selected.tables == EMPTY && selected.calls == [Start(request).(pc := InsertPair)];
  }

  /** A later call for the same pair returns what it finds. */
  lemma FoundAgain(s: State, request: Request, c: Uuid, now: int)
    requires request.OpenDirect? && request.id1 != NIL && request.id2 != NIL
    requires s.tables.conversations.Keys == {c} && s.tables.conversations[c].pair == Some(PairOf(request))
    ensures var s' := Next(Next(s, Begin(request)), Step(|s.calls|, c, now));
            && s'.calls == s.calls + [Start(request).(pc := Opened(c))] && s'.tables == s.tables
  {
    hide TextLess, ToString, BytesLess, Canonical;
    assert c in s.tables.conversations;
    assert SelectDirect(s.tables, PairOf(request)) == Some(c);
  }

  lemma RunSnoc(actions: seq<Action>, action: Action)
    ensures After(actions + [action]) == Next(After(actions), action)
  {
  }

  lemma PairDiffers(t: Tables, c: Uuid, request: Request)
    requires TablesSound(t) && Pairs(request) && HoldsPair(t, c, request)
    ensures LowRow(request, c) != HighRow(request, c)
  {
    SmallerFirst(PairOf(request).low, PairOf(request).high);
  }

  /** No call ever removes a participant of a direct conversation. */
  lemma DirectRowsStay(actions: seq<Action>, action: Action, row: Participant)
    requires row in After(actions).tables.participants
    requires row.conversation in After(actions).tables.conversations
             && After(actions).tables.conversations[row.conversation].kind.Direct?
    ensures row in Next(After(actions), action).tables.participants
  {
    hide After, Inserted, Owned, GroupsOwned, RowsExact, TablesSound, CallSound, Execute;
    EveryRunKeepsInv(actions);
    var s := After(actions);
    match action
    case Begin(_) =>
    case Fail(_) =>
    case Step(i, id, now, heard) =>
      if i < |s.calls| {
        assert CallSound(s.tables, s.calls[i]);
        EffectOnRows(s.tables, s.calls[i], id, now, row);
      }
  }

  // ---------------------------------------------------------------------------------------------
  // Groups
  // ---------------------------------------------------------------------------------------------

  /** Every group points at a group conversation of its own; a conversation's group id points back at it; direct
      conversations carry none. */
  lemma GroupsAndConversationsMatch(actions: seq<Action>)
    ensures var t := After(actions).tables;
            && (forall g :: g in t.groups ==>
                  t.groups[g].conversation.Some? && IsGroup(t, t.groups[g].conversation.value))
            && (forall g, h :: g in t.groups && h in t.groups && g != h ==>
                  t.groups[g].conversation != t.groups[h].conversation)
            && (forall c :: c in t.conversations && t.conversations[c].groupId.Some? ==>
                  InGroup(t, t.conversations[c].groupId.value, c))
            && (forall c :: c in t.conversations && t.conversations[c].kind.Direct? ==>
                  t.conversations[c].groupId.None?)
  {
    hide After, RowsExact, BytesLess, PairOf;
    EveryRunKeepsInv(actions);
    var s := After(actions);
    var t := s.tables;
    forall c | c in t.conversations
      ensures t.conversations[c].groupId.Some? ==> InGroup(t, t.conversations[c].groupId.value, c)
      ensures t.conversations[c].kind.Direct? ==> t.conversations[c].groupId.None?
    {
      assert CallSound(t, Maker(s, c));
    }
  }

  /** A group's conversation has the group's id exactly when its founder got as far as linking it. */
  lemma LinkedIffFounderWasThrough(actions: seq<Action>, g: Uuid, c: Uuid)
    requires InGroup(After(actions).tables, g, c)
    ensures var s := After(actions);
            && Owned(s) && IsGroup(s.tables, c) && Maker(s, c).request.FoundGroup? && Maker(s, c).founded == Some(g)
            && (s.tables.conversations[c].groupId == Some(g) <==> Maker(s, c).progress >= 2)
  {
    hide After, RowsExact, BytesLess, PairOf;
    EveryRunKeepsInv(actions);
    var s := After(actions);
    assert CallSound(s.tables, Maker(s, c));
  }
}

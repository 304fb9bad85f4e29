/** Runs that reach what the theorems warn of: the lost race, the misrouted message and the missed one. */
module Witnesses {
  import opened Wrappers
  import opened Uuids
  import opened Database
  import opened Conversations
  import opened ConversationSafety
  import opened ConversationTheorems
  import opened MessageRouting
  import opened Messages
  import S = ConversationService

  // ---------------------------------------------------------------------------------------------
  // The lost race
  // ---------------------------------------------------------------------------------------------

  /** Two calls for one pair, in either order of its ids, both find no conversation; then both insert one. */
  function Race(n: nat, first: Request, second: Request, c: Uuid, d: Uuid, now: int): seq<Action> {
    [Begin(first), Begin(second), Step(n, c, now), Step(n + 1, d, now), Step(n, c, now), Step(n + 1, d, now)]
  }

  /** After any run, two such calls for a pair without a conversation end like this: the first has inserted its
      conversation and goes on to add participants, and the second has failed. */
  lemma RaceIsLost(actions: seq<Action>, first: Request, second: Request, c: Uuid, d: Uuid, now: int)
    requires first.OpenDirect? && second.OpenDirect?
    requires {first.id1, first.id2} == {second.id1, second.id2}
    requires first.id1 != first.id2 && first.id1 != NIL && first.id2 != NIL
    requires !PairTaken(After(actions).tables, PairOf(first)) && c !in After(actions).tables.conversations
    ensures var s, n := After(actions), |After(actions).calls|;
            var s' := After(actions + Race(n, first, second, c, d, now));
            && |s'.calls| == n + 2
            && s'.calls[n].pc == AddLow(c) && s'.calls[n + 1].pc == Failed
            && HoldsPair(s'.tables, c, first) && HoldsPair(s'.tables, c, second)
  {
    hide After, Next, PairTaken, PairOf, HoldsPair, Race;
    var s, n := After(actions), |After(actions).calls|;
    SamePair(first, second);
    var race := Race(n, first, second, c, d, now);
    RaceActions(n, first, second, c, d, now);
    RaceUnfolds(actions, race);
    BothSelect(s, first, second, c, d, now);
    var selected := After(actions + race[..4]);
    FirstInserts(selected, n, c, now);
    SecondFails(Next(selected, race[4]), n + 1, d, now);
    SameHolds(After(actions + race).tables, c, first, second);
  }

  lemma RaceActions(n: nat, first: Request, second: Request, c: Uuid, d: Uuid, now: int)
    ensures var race := Race(n, first, second, c, d, now);
            && |race| == 6 && race[0] == Begin(first) && race[1] == Begin(second)
            && race[2] == Step(n, c, now) && race[3] == Step(n + 1, d, now)
            && race[4] == Step(n, c, now) && race[5] == Step(n + 1, d, now)
  {
  }

  lemma SamePair(first: Request, second: Request)
    requires first.OpenDirect? && second.OpenDirect? && {first.id1, first.id2} == {second.id1, second.id2}
    ensures PairOf(first) == PairOf(second)
    ensures second.id1 in {first.id1, first.id2} && second.id2 in {first.id1, first.id2}
  {
    hide TextLess, ToString, Canonical;
    CanonicalInjective(first.id1, first.id2, second.id1, second.id2);
  }

  lemma SameHolds(t: Tables, c: Uuid, first: Request, second: Request)
    requires Pairs(first) && Pairs(second) && PairOf(first) == PairOf(second)
    ensures HoldsPair(t, c, first) <==> HoldsPair(t, c, second)
  {
  }

  lemma RaceUnfolds(actions: seq<Action>, race: seq<Action>)
    requires |race| == 6
    ensures After(actions + race[..4]) == Next(Next(Next(Next(After(actions), race[0]), race[1]), race[2]), race[3])
    ensures After(actions + race) == Next(Next(After(actions + race[..4]), race[4]), race[5])
  {
    hide After, Next;
    assert actions + race[..0] == actions && race[..6] == race;
    ActionAt(actions, race, 0);
    ActionAt(actions, race, 1);
    ActionAt(actions, race, 2);
    ActionAt(actions, race, 3);
    ActionAt(actions, race, 4);
    ActionAt(actions, race, 5);
  }

  lemma ActionAt(actions: seq<Action>, more: seq<Action>, k: nat)
    requires k < |more|
    ensures After(actions + more[..k + 1]) == Next(After(actions + more[..k]), more[k])
  {
    hide After, Next;
    RunSnoc(actions + more[..k], more[k]);
    assert actions + more[..k + 1] == actions + more[..k] + [more[k]];
  }

  lemma BothSelect(s: State, first: Request, second: Request, c: Uuid, d: Uuid, now: int)
    requires first.OpenDirect? && second.OpenDirect? && PairOf(first) == PairOf(second)
    requires first.id1 != NIL && first.id2 != NIL && second.id1 != NIL && second.id2 != NIL
    requires !PairTaken(s.tables, PairOf(first))
    ensures var n := |s.calls|;
            var s' := Next(Next(Next(Next(s, Begin(first)), Begin(second)), Step(n, c, now)), Step(n + 1, d, now));
            && s'.tables == s.tables
            && s'.calls == s.calls + [Start(first).(pc := InsertPair), Start(second).(pc := InsertPair)]
  {
    hide PairOf;
  }

  lemma FirstInserts(s: State, n: nat, c: Uuid, now: int)
    requires n < |s.calls| && s.calls[n].request.OpenDirect? && s.calls[n].pc == InsertPair
    requires s.calls[n].request.id1 != s.calls[n].request.id2
    requires c !in s.tables.conversations && !PairTaken(s.tables, PairOf(s.calls[n].request))
    ensures var s' := Next(s, Step(n, c, now));
            && |s'.calls| == |s.calls| && s'.calls[n] == s.calls[n].(pc := AddLow(c), made := Some(c))
            && (forall i :: 0 <= i < |s.calls| && i != n ==> s'.calls[i] == s.calls[i])
            && HoldsPair(s'.tables, c, s.calls[n].request) && PairTaken(s'.tables, PairOf(s.calls[n].request))
  {
    hide TextLess, ToString, BytesLess, Canonical;
    CanonicalPair(s.calls[n].request.id1, s.calls[n].request.id2);
  }

  lemma SecondFails(s: State, i: nat, d: Uuid, now: int)
    requires i < |s.calls| && s.calls[i].request.OpenDirect? && s.calls[i].pc == InsertPair
    requires PairTaken(s.tables, PairOf(s.calls[i].request))
    ensures var s' := Next(s, Step(i, d, now));
            s'.tables == s.tables && s'.calls == s.calls[i := s.calls[i].(pc := Failed)]
  {
    hide PairOf, PairTaken, BytesLess;
  }

  // ---------------------------------------------------------------------------------------------
  // The misrouted message
  // ---------------------------------------------------------------------------------------------

  /** From nothing: a group is founded, and then a message to it, whose look-up fails, is saved to a direct conversation
      between its sender and the group. */
  lemma MessageGoesAstray(founding: Request, groupSupply: S.Supply, m: Sending) returns (actions: seq<Action>)
    requires founding.FoundGroup? && founding.name != ""
    requires m.request.Send? && m.request.to == groupSupply.groupId
    requires m.request.from != m.request.to && m.request.from != NIL && m.request.to != NIL
    requires m.supply.conversationId != groupSupply.conversationId
    ensures var s := After(actions);
            && |s.calls| == 2 && s.calls[0].request == founding && s.calls[1].request == m.request
            && s.calls[0].pc == Founded(groupSupply.conversationId, groupSupply.groupId)
            && SavedBy(s, 1, m.supply.conversationId, ToDirect)
            && InGroup(s.tables, m.request.to, groupSupply.conversationId)
            && HoldsPair(s.tables, m.supply.conversationId, m.request)
  {
    hide After, Next, HoldsPair, SavedBy, PairOf, S.Alone, CanBeMisrouted, OpensDirect;
    var begun := [Begin(founding)];
    var founded := S.AloneIsARun([], founding, groupSupply);
    var past := [] + begun + founded;
    NothingYet();
    S.FoundsAlone(EMPTY, founding, groupSupply);
    NothingInTheWay(After(past).tables, m, groupSupply.conversationId);
    var more := FailedLookupMisroutes(past, m);
    var rest := [Begin(m.request), Fail(|After(past).calls|)] + more;
    actions := past + rest;
    assert actions == past + [Begin(m.request), Fail(|After(past).calls|)] + more;
    assert actions[..|past|] == past;
    RunExtends(actions, |past|);
    GroupsStay(After(past).tables, After(actions).tables);
    SavedWhere(actions, 1, m.supply.conversationId, ToDirect);
  }

  lemma NothingYet()
    ensures After([]) == State(EMPTY, [], map[], [])
  {
  }

  lemma NothingInTheWay(t: Tables, m: Sending, c: Uuid)
    requires m.request.Send? && m.request.from != m.request.to && m.request.from != NIL && m.request.to != NIL
    requires t.conversations.Keys == {c} && t.conversations[c].pair.None? && t.messages == map[]
    requires m.supply.conversationId != c && InGroup(t, m.request.to, c)
    ensures CanBeMisrouted(t, m)
  {
    hide PairOf;
  }

  // ---------------------------------------------------------------------------------------------
  // Leaving in vain
  // ---------------------------------------------------------------------------------------------

  /** A group's row is there before its owner's; so the owner can leave in between, without an error, and is a participant
      in the end. */
  lemma OwnerLeavesInVain(name: string, owner: Uuid, c: Uuid, g: Uuid, now: int) returns (actions: seq<Action>)
    requires name != ""
    ensures var s := After(actions);
            && |s.calls| == 2 && s.calls[0].request == FoundGroup(name, owner) && s.calls[0].pc == Founded(c, g)
            && s.calls[1].request == Leave(g, owner, User) && s.calls[1].pc == Left
            && InGroup(s.tables, g, c) && Participant(c, owner, User) in s.tables.participants
  {
    hide After, Next;
    actions := [];
    NothingYet();
    var first := [Begin(FoundGroup(name, owner)), Step(0, c, now), Step(0, g, now)];
    var rest := [Begin(Leave(g, owner, User)), Step(1, g, now), Step(1, g, now), Step(0, g, now), Step(0, g, now)];
    ThreeActions([], first);
    GroupRowIsThere(name, owner, c, g, now);
    var s := After([] + first);
    FiveActions([] + first, rest);
    actions := [] + first + rest;
    LeavesBetween(s, name, owner, c, g, now);
  }

  lemma ThreeActions(actions: seq<Action>, more: seq<Action>)
    requires |more| == 3
    ensures After(actions + more) == Next(Next(Next(After(actions), more[0]), more[1]), more[2])
  {
    hide After, Next;
    assert actions + more[..0] == actions && more[..3] == more;
    ActionAt(actions, more, 0);
    ActionAt(actions, more, 1);
    ActionAt(actions, more, 2);
  }

  lemma FiveActions(actions: seq<Action>, more: seq<Action>)
    requires |more| == 5
    ensures After(actions + more)
         == Next(Next(Next(Next(Next(After(actions), more[0]), more[1]), more[2]), more[3]), more[4])
  {
    hide After, Next;
    ThreeActions(actions, more[..3]);
    assert more[..5] == more;
    ActionAt(actions, more, 3);
    ActionAt(actions, more, 4);
  }

  lemma GroupRowIsThere(name: string, owner: Uuid, c: Uuid, g: Uuid, now: int)
    requires name != ""
    ensures var s := Next(Next(Next(State(EMPTY, [], map[], []), Begin(FoundGroup(name, owner))), Step(0, c, now)),
                          Step(0, g, now));
            && s.calls == [Call(FoundGroup(name, owner), LinkGroup(c, g), Some(c), Some(g), 1)]
            && s.tables.conversations.Keys == {c} && s.tables.groups == map[g := ChatGroup(name, owner, Some(c))]
            && s.tables.participants == {}
  {
    var begun := Next(State(EMPTY, [], map[], []), Begin(FoundGroup(name, owner)));
    var made := Next(begun, Step(0, c, now));
    assert made.calls == [Call(FoundGroup(name, owner), InsertGroupRow(c), Some(c), None, 0)];
  }

  lemma LeavesBetween(s: State, name: string, owner: Uuid, c: Uuid, g: Uuid, now: int)
    requires s.calls == [Call(FoundGroup(name, owner), LinkGroup(c, g), Some(c), Some(g), 1)]
    requires c in s.tables.conversations && s.tables.groups == map[g := ChatGroup(name, owner, Some(c))]
    ensures var s' := Next(Next(Next(Next(Next(s, Begin(Leave(g, owner, User))), Step(1, g, now)), Step(1, g, now)),
                                Step(0, g, now)), Step(0, g, now));
            && |s'.calls| == 2 && s'.calls[0].request == FoundGroup(name, owner) && s'.calls[0].pc == Founded(c, g)
            && s'.calls[1].request == Leave(g, owner, User) && s'.calls[1].pc == Left
            && InGroup(s'.tables, g, c) && Participant(c, owner, User) in s'.tables.participants
  {
    var founder, leaver := s.calls[0], Start(Leave(g, owner, User));
    var begun := Next(s, Begin(Leave(g, owner, User)));
    var found := Next(begun, Step(1, g, now));
    assert found.calls == [founder, leaver.(pc := RemoveMember(c))] && found.tables == s.tables;
    var left := Next(found, Step(1, g, now));
    assert left.calls == [founder, leaver.(pc := Left)];
    assert left.tables.conversations == s.tables.conversations && left.tables.groups == s.tables.groups;
    var linked := Next(left, Step(0, g, now));
    assert linked.calls == [founder.(pc := AddOwner(c, g), progress := 2), leaver.(pc := Left)];
  }

  // ---------------------------------------------------------------------------------------------
  // The missed message
  // ---------------------------------------------------------------------------------------------

  /** A message between two participants who have a conversation, and neither is a group. */
  ghost predicate SendsAgain(t: Tables, request: Request, c: Uuid) {
    && request.Send? && request.from != NIL && request.to != NIL && request.to !in t.groups
    && HoldsPair(t, c, request) && request.messageId !in t.messages
  }

  lemma SavesToOldDirect(t: Tables, request: Request, supply: S.Supply, c: Uuid)
    requires SendsAgain(t, request, c) && SelectDirect(t, PairOf(request)) == Some(c)
    ensures var (t', call) := S.Alone(t, Start(request), supply);
            && call.pc == Saved(c, ToDirect)
            && t'.messages == t.messages[request.messageId := MessageOf(request, c)]
  {
    hide S.Alone, S.NextAlone, PairOf, SelectDirect;
    var call := Start(request);
    S.SelectsRecipient(t, call, supply);
    call := call.(pc := SelectPair);
    S.SelectsPair(t, call, supply);
    call := call.(pc := Save(c, ToDirect));
    S.Saves(t, call, supply, c, ToDirect);
    S.EndedStays(SaveMessage(t, request.messageId, MessageOf(request, c)).value, call.(pc := Saved(c, ToDirect)), supply);
  }

  lemma OnlyConversation(actions: seq<Action>, request: Request, c: Uuid)
    requires SendsAgain(After(actions).tables, request, c)
    ensures SelectDirect(After(actions).tables, PairOf(request)) == Some(c)
  {
    hide After, CallsSound, Owned, GroupsOwned, RowsExact, PairOf, BytesLess;
    EveryRunKeepsInv(actions);
  }

  /** After any run, a client that has seen a timestamp not below that of the next message in its conversation never
      gets that message: it is saved, the next page is empty although the client has not got it, and no later page has
      it either. */
  lemma SameSecondIsMissed(actions: seq<Action>, polls: seq<Poll>, c: Uuid, request: Request, supply: S.Supply)
    returns (more: seq<Action>)
    requires polls != [] && Polling(polls, c) && polls[|polls| - 1].tables == After(actions).tables
    requires SendsAgain(After(actions).tables, request, c)
    requires Cursor(polls).Some? && request.timestamp <= Cursor(polls).value
    ensures var t := After(actions + more).tables;
            && Holds(t, c, request.messageId) && TimeOf(t, request.messageId) == request.timestamp
            && Polling(polls + [Poll(t, 0, [])], c)
    ensures var t := After(actions + more).tables;
            forall rest: seq<Poll> :: rest != [] && rest[0].tables == t && Polling(polls + rest, c) ==>
              request.messageId !in Received(polls + rest)
  {
    hide After, Polling, Received, S.Alone, IsPage, HoldsPair, SelectDirect, Cursor;
    OnlyConversation(actions, request, c);
    var alone := S.AloneIsARun(actions, request, supply);
    more := [Begin(request)] + alone;
    assert actions + more == actions + [Begin(request)] + alone;
    SavesToOldDirect(After(actions).tables, request, supply, c);
    var t := After(actions + more).tables;
    ComesLate(polls, c, t, request);
    forall rest: seq<Poll> | rest != [] && rest[0].tables == t && Polling(polls + rest, c)
      ensures request.messageId !in Received(polls + rest)
    {
      assert (polls + rest)[..|polls|] == polls;
      MissedWhen(polls + rest, c, |polls|, request.messageId);
    }
  }

  /** The client has seen all timestamps up to this one; so its next page is empty. */
  lemma ComesLate(polls: seq<Poll>, c: Uuid, t: Tables, request: Request)
    requires polls != [] && Polling(polls, c) && Cursor(polls).Some?
    requires request.Send? && request.timestamp <= Cursor(polls).value
    requires t.messages == polls[|polls| - 1].tables.messages[request.messageId := MessageOf(request, c)]
    requires request.messageId !in polls[|polls| - 1].tables.messages
    ensures Polling(polls + [Poll(t, 0, [])], c)
  {
    hide Cursor, Received;
    var last := polls[|polls| - 1].tables;
    forall m ensures !Matches(t, c, Cursor(polls), None, m) {
      if Holds(last, c, m) {
        NothingIsAhead(polls, c, m);
      }
    }
    var all := polls + [Poll(t, 0, [])];
    assert all[..|all| - 1] == polls;
  }

  /** Two messages in one second: from nothing, one is sent and received, and another one with its timestamp is sent and
      missed, however the client polls on. */
  lemma TwoInOneSecond(first: Sending, second: Request, supply: S.Supply)
    returns (actions: seq<Action>, more: seq<Action>, polls: seq<Poll>)
    requires first.request.Send? && second.Send? && first.request.timestamp == second.timestamp
    requires first.request.messageId != second.messageId
    requires first.request.from != first.request.to && first.request.from != NIL && first.request.to != NIL
    requires {second.from, second.to} == {first.request.from, first.request.to}
    ensures var c, t, t' := first.supply.conversationId, After(actions).tables, After(actions + more).tables;
            && Holds(t, c, first.request.messageId) && Holds(t', c, second.messageId)
            && polls == [Poll(t, 0, [first.request.messageId])] && Polling(polls, c)
            && Polling(polls + [Poll(t', 0, [])], c)
            && forall rest: seq<Poll> :: rest != [] && rest[0].tables == t' && Polling(polls + rest, c) ==>
                 second.messageId !in Received(polls + rest)
  {
    hide After, Polling, Received, S.Alone, HoldsPair, PairOf, OpensDirect, SendsAgain;
    var c := first.supply.conversationId;
    NothingYet();
    var alone := S.AloneIsARun([], first.request, first.supply);
    actions := [] + [Begin(first.request)] + alone;
    NobodyThere(first);
    SelectsNoGroup(EMPTY, first.request, first.supply);
    SavesToNewDirect(EMPTY, first);
    var t := After(actions).tables;
    polls := [Poll(t, 0, [first.request.messageId])];
    FirstPage(t, c, first.request);
    SendsInto(t, first.request, second, c);
    more := SameSecondIsMissed(actions, polls, c, second, supply);
  }

  lemma NobodyThere(m: Sending)
    requires m.request.Send? && m.request.from != m.request.to && m.request.from != NIL && m.request.to != NIL
    ensures OpensDirect(EMPTY, m)
  {
    hide PairOf;
  }

  lemma SelectsNoGroup(t: Tables, request: Request, supply: S.Supply)
    requires request.Send? && request.to !in t.groups
    ensures S.Alone(t, Start(request), supply) == S.Alone(t, Start(request).(pc := SelectPair), supply)
  {
    hide S.Alone;
    S.SelectsRecipient(t, Start(request), supply);
  }

  /** A client's first page when there is one message. */
  lemma FirstPage(t: Tables, c: Uuid, request: Request)
    requires request.Send? && t.messages == map[request.messageId := MessageOf(request, c)]
    ensures Polling([Poll(t, 0, [request.messageId])], c)
    ensures Cursor([Poll(t, 0, [request.messageId])]) == Some(request.timestamp)
  {
    var polls := [Poll(t, 0, [request.messageId])];
    assert polls[..|polls| - 1] == [] && Polling([], c);
    assert IsPage(t, c, 0, Cursor([]), None, polls[0].page);
  }

  lemma SendsInto(t: Tables, first: Request, second: Request, c: Uuid)
    requires first.Send? && second.Send? && first.messageId != second.messageId
    requires t.messages == map[first.messageId := MessageOf(first, c)] && t.groups == map[] && HoldsPair(t, c, first)
    requires first.from != NIL && first.to != NIL && {second.from, second.to} == {first.from, first.to}
    ensures SendsAgain(t, second, c)
  {
    hide TextLess, ToString, Canonical;
    CanonicalInjective(first.from, first.to, second.from, second.to);
    assert second.from in {first.from, first.to} && second.to in {first.from, first.to};
  }
}

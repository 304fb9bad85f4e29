/** The denormalised last message of a conversation, and clients that poll for new messages. */
module Messages {
  import opened Wrappers
  import opened Uuids
  import opened Database
  import opened Conversations

  // ---------------------------------------------------------------------------------------------
  // Commit order
  // ---------------------------------------------------------------------------------------------

  /** The messages of a conversation, in the order in which they were committed. */
  ghost function History(messages: map<Uuid, Message>, committed: seq<Uuid>, c: Uuid): seq<Uuid> {
    if committed == [] then []
    else
      var last := committed[|committed| - 1];
      History(messages, committed[..|committed| - 1], c)
      + (if last in messages && messages[last].conversation == c then [last] else [])
  }

  /** The commit order lists every message once. */
  ghost predicate Listed(messages: map<Uuid, Message>, committed: seq<Uuid>) {
    && (forall i :: 0 <= i < |committed| ==> committed[i] in messages)
    && (forall i, j :: 0 <= i < j < |committed| ==> committed[i] != committed[j])
    && (forall m :: m in messages ==> m in committed)
  }

  /** A conversation's last message is the one committed last, or else its creation stands in. */
  ghost predicate LastIsCurrent(s: State, c: Uuid)
    requires c in s.tables.conversations
  {
    var row := s.tables.conversations[c];
    var history := History(s.tables.messages, s.committed, c);
    if history == [] then row.lastMessageId.None? && row.lastMessageAt == row.createdAt
    else
      var last := history[|history| - 1];
      && row.lastMessageId == Some(last)
      && last in s.tables.messages && row.lastMessageAt == s.tables.messages[last].timestamp
  }

  ghost predicate MessagesInv(s: State) {
    && Listed(s.tables.messages, s.committed)
    && (forall m :: m in s.tables.messages ==> s.tables.messages[m].conversation in s.tables.conversations)
    && (forall c :: c in s.tables.conversations ==> LastIsCurrent(s, c))
  }

  lemma HistorySnoc(messages: map<Uuid, Message>, committed: seq<Uuid>, m: Uuid, c: Uuid)
    ensures History(messages, committed + [m], c)
         == History(messages, committed, c) + (if m in messages && messages[m].conversation == c then [m] else [])
  {
  }

  lemma {:induction false} HistoryFrame(messages: map<Uuid, Message>, messages': map<Uuid, Message>,
                                        committed: seq<Uuid>, c: Uuid)
    requires forall i :: 0 <= i < |committed| ==>
               committed[i] in messages && committed[i] in messages' && messages[committed[i]] == messages'[committed[i]]
    ensures History(messages, committed, c) == History(messages', committed, c)
  {
    if committed != [] {
      HistoryFrame(messages, messages', committed[..|committed| - 1], c);
    }
  }

  lemma {:induction false} HistoryIsMessages(messages: map<Uuid, Message>, committed: seq<Uuid>, c: Uuid, m: Uuid)
    ensures m in History(messages, committed, c)
       <==> m in committed && m in messages && messages[m].conversation == c
  {
    if committed != [] {
      HistoryIsMessages(messages, committed[..|committed| - 1], c, m);
    }
  }

  lemma {:induction false} HistoryOfNothing(messages: map<Uuid, Message>, committed: seq<Uuid>, c: Uuid)
    requires forall m :: m in messages ==> messages[m].conversation != c
    ensures History(messages, committed, c) == []
  {
    if committed != [] {
      HistoryOfNothing(messages, committed[..|committed| - 1], c);
    }
  }

  /** What a statement that saves no message may do: insert conversations, and change rows elsewhere. */
  ghost predicate LeavesMessages(t: Tables, t': Tables) {
    && t'.messages == t.messages
    && (forall c :: c in t.conversations ==>
          && c in t'.conversations
          && t'.conversations[c].lastMessageId == t.conversations[c].lastMessageId
          && t'.conversations[c].lastMessageAt == t.conversations[c].lastMessageAt
          && t'.conversations[c].createdAt == t.conversations[c].createdAt)
    && (forall c :: c in t'.conversations && c !in t.conversations ==>
          && t'.conversations[c].lastMessageId.None?
          && t'.conversations[c].lastMessageAt == t'.conversations[c].createdAt)
  }

  ghost predicate Saves(call: Call, call': Call) {
    call.request.Send? && call'.pc.Saved? && !call.pc.Saved?
  }

  lemma EffectOnMessages(t: Tables, call: Call, id: Uuid, now: int)
    ensures var (t', call') := Execute(t, call, id, now);
            if Saves(call, call') then
              && call.pc.Save?
              && SaveMessage(t, call.request.messageId, MessageOf(call.request, call.pc.conversation)) == Success(t')
            else LeavesMessages(t, t')
  {
    hide PairOf, First, Second, LowRow, HighRow, BytesLess, SelectDirect, PairTaken;
  }

  lemma SaveKeepsInv(s: State, id: Uuid, message: Message, s': State)
    requires MessagesInv(s) && SaveMessage(s.tables, id, message) == Success(s'.tables)
    requires s'.committed == s.committed + [id]
    ensures MessagesInv(s')
  {
    hide History, LastIsCurrent;
    forall c | c in s'.tables.conversations ensures LastIsCurrent(s', c) {
      SaveIsCurrent(s, id, message, s', c);
    }
  }

  lemma SaveIsCurrent(s: State, id: Uuid, message: Message, s': State, c: Uuid)
    requires Listed(s.tables.messages, s.committed) && c in s.tables.conversations && LastIsCurrent(s, c)
    requires SaveMessage(s.tables, id, message) == Success(s'.tables)
    requires s'.committed == s.committed + [id]
    ensures LastIsCurrent(s', c)
  {
    hide History;
    HistorySnoc(s'.tables.messages, s.committed, id, c);
    HistoryFrame(s.tables.messages, s'.tables.messages, s.committed, c);
    var history := History(s.tables.messages, s.committed, c);
    assert history + [] == history;
    forall m ensures m in history ==> m in s.committed {
      HistoryIsMessages(s.tables.messages, s.committed, c, m);
    }
  }

  lemma OtherKeepsInv(s: State, s': State)
    requires MessagesInv(s) && LeavesMessages(s.tables, s'.tables) && s'.committed == s.committed
    ensures MessagesInv(s')
  {
    forall c | c in s'.tables.conversations ensures LastIsCurrent(s', c) {
      if c in s.tables.conversations {
        assert LastIsCurrent(s, c);
      } else {
        HistoryOfNothing(s.tables.messages, s.committed, c);
      }
    }
  }

  lemma {:induction false} EveryRunKeepsMessages(actions: seq<Action>)
    ensures MessagesInv(After(actions))
  {
    if actions != [] {
      var s, action := After(actions[..|actions| - 1]), actions[|actions| - 1];
      EveryRunKeepsMessages(actions[..|actions| - 1]);
      hide MessagesInv, LeavesMessages, Execute;
      if action.Step? && action.call < |s.calls| {
        var call := s.calls[action.call];
        var (t', call') := Execute(s.tables, call, action.id, action.now);
        EffectOnMessages(s.tables, call, action.id, action.now);
        if Saves(call, call') {
          SaveKeepsInv(s, call.request.messageId, MessageOf(call.request, call.pc.conversation), Next(s, action));
        } else {
          OtherKeepsInv(s, Next(s, action));
        }
      } else {
        SameTables(s);
        OtherKeepsInv(s, Next(s, action));
      }
    }
  }

  lemma SameTables(s: State)
    ensures LeavesMessages(s.tables, s.tables)
  {
  }

  // ---------------------------------------------------------------------------------------------
  // The last message
  // ---------------------------------------------------------------------------------------------

  /** A conversation's last-message id is null exactly when it has no message; otherwise it names one of its messages,
      whose timestamp is the conversation's last-message time. */
  lemma LastMessage(actions: seq<Action>, c: Uuid)
    requires c in After(actions).tables.conversations
    ensures var t := After(actions).tables;
            var last := t.conversations[c].lastMessageId;
            && (last.None? <==> forall m :: m in t.messages ==> t.messages[m].conversation != c)
            && (last.Some? ==> last.value in t.messages && t.messages[last.value].conversation == c
                               && t.conversations[c].lastMessageAt == t.messages[last.value].timestamp)
            && (last.None? ==> t.conversations[c].lastMessageAt == t.conversations[c].createdAt)
  {
    hide After;
    EveryRunKeepsMessages(actions);
    var s := After(actions);
    var t := s.tables;
    var history := History(t.messages, s.committed, c);
    assert LastIsCurrent(s, c);
    forall m ensures m in history <==> m in t.messages && t.messages[m].conversation == c {
      HistoryIsMessages(t.messages, s.committed, c, m);
    }
    if history != [] {
      assert history[|history| - 1] in history;
    }
  }

  ghost predicate Chronological(messages: map<Uuid, Message>, history: seq<Uuid>) {
    forall i, j :: 0 <= i < j < |history| && history[i] in messages && history[j] in messages ==>
      messages[history[i]].timestamp <= messages[history[j]].timestamp
  }

  lemma NewestIsLast(s: State, c: Uuid, i: nat)
    requires c in s.tables.conversations && LastIsCurrent(s, c)
    requires Chronological(s.tables.messages, History(s.tables.messages, s.committed, c))
    requires i < |History(s.tables.messages, s.committed, c)|
    requires History(s.tables.messages, s.committed, c)[i] in s.tables.messages
    ensures s.tables.messages[History(s.tables.messages, s.committed, c)[i]].timestamp
         <= s.tables.conversations[c].lastMessageAt
  {
    hide History;
  }

  /** If a conversation's messages are committed in chronological order, its last-message time is their maximum: it is
      the time of one of them, and of none later. */
  lemma LastIsNewest(actions: seq<Action>, c: Uuid, m: Uuid)
    requires c in After(actions).tables.conversations
    requires Chronological(After(actions).tables.messages,
                           History(After(actions).tables.messages, After(actions).committed, c))
    requires m in After(actions).tables.messages && After(actions).tables.messages[m].conversation == c
    ensures var t := After(actions).tables;
            && t.messages[m].timestamp <= t.conversations[c].lastMessageAt
            && exists last :: last in t.messages && t.messages[last].conversation == c
                              && t.messages[last].timestamp == t.conversations[c].lastMessageAt
  {
    hide After, History, LastIsCurrent, Chronological;
    EveryRunKeepsMessages(actions);
    LastMessage(actions, c);
    var s := After(actions);
    HistoryIsMessages(s.tables.messages, s.committed, c, m);
    var i :| 0 <= i < |History(s.tables.messages, s.committed, c)|
             && History(s.tables.messages, s.committed, c)[i] == m;
    NewestIsLast(s, c, i);
  }

  // ---------------------------------------------------------------------------------------------
  // Polling
  // ---------------------------------------------------------------------------------------------

  ghost predicate Matches(t: Tables, c: Uuid, sinceTime: Option<int>, sinceId: Option<Uuid>, m: Uuid) {
    && m in t.messages && t.messages[m].conversation == c
    && (sinceTime.Some? ==> t.messages[m].timestamp > sinceTime.value)
    && (sinceId.Some? ==> BytesLess(sinceId.value, m))
  }

  function PageSize(limit: int): nat {
    if limit <= 0 then 50 else limit
  }

  /** What GetByConversation may return: the newest matching messages, newest first, no more than the page size. The
      database is free to order messages with equal timestamps as it likes. */
  ghost predicate IsPage(t: Tables, c: Uuid, limit: int, sinceTime: Option<int>, sinceId: Option<Uuid>, page: seq<Uuid>) {
    && (forall i :: 0 <= i < |page| ==> Matches(t, c, sinceTime, sinceId, page[i]))
    && (forall i, j :: 0 <= i < j < |page| ==>
          page[i] != page[j] && t.messages[page[i]].timestamp >= t.messages[page[j]].timestamp)
    && |page| <= PageSize(limit)
    && (forall m :: Matches(t, c, sinceTime, sinceId, m) && m !in page ==>
          && |page| == PageSize(limit)
          && forall i :: 0 <= i < |page| ==> t.messages[page[i]].timestamp >= t.messages[m].timestamp)
  }

  /** The messages that a poll asks for. */
  ghost function Asked(t: Tables, c: Uuid, sinceTime: Option<int>, sinceId: Option<Uuid>): set<Uuid> {
    set m | m in t.messages && Matches(t, c, sinceTime, sinceId, m)
  }

  ghost function Backlog(t: Tables, c: Uuid, since: Option<int>): set<Uuid> {
    Asked(t, c, since, None)
  }

  ghost function Elements(s: seq<Uuid>): set<Uuid> {
    set m | m in s
  }

  lemma {:induction false} DistinctElements(s: seq<Uuid>)
    requires forall i, j :: 0 <= i < j < |s| ==> s[i] != s[j]
    ensures |Elements(s)| == |s|
  {
    if s == [] {
      assert Elements(s) == {};
    } else {
      var n := |s| - 1;
      DistinctElements(s[..n]);
      assert Elements(s) == Elements(s[..n]) + {s[n]};
      assert s[n] !in Elements(s[..n]);
    }
  }

  lemma {:induction false} SubsetSize(a: set<Uuid>, b: set<Uuid>)
    requires a <= b
    ensures |a| <= |b| && (|a| == |b| ==> a == b)
  {
    if a != {} {
      var x :| x in a;
      SubsetSize(a - {x}, b - {x});
    } else if b != {} {
      var x :| x in b;
      assert |b| > 0;
    }
  }

  lemma PageOfAsked(t: Tables, c: Uuid, limit: int, sinceTime: Option<int>, sinceId: Option<Uuid>, page: seq<Uuid>)
    requires IsPage(t, c, limit, sinceTime, sinceId, page)
    ensures var asked := Asked(t, c, sinceTime, sinceId);
            && Elements(page) <= asked
            && |page| == (if |asked| <= PageSize(limit) then |asked| else PageSize(limit))
            && (Elements(page) == asked <==> |asked| <= PageSize(limit))
  {
    var asked := Asked(t, c, sinceTime, sinceId);
    DistinctElements(page);
    SubsetSize(Elements(page), asked);
    if m :| m in asked && m !in page {
      assert Matches(t, c, sinceTime, sinceId, m);
      assert |page| == PageSize(limit);
    } else {
      assert Elements(page) == asked;
    }
  }

  /** What a poll asks for are the conversation's messages after a time, or behind an id, or both. A page holds all of
      them exactly when they are no more than the limit, which is 50 unless it is positive; otherwise it is full, and
      holds the newest of them. It is in descending order of time. */
  lemma OnePoll(t: Tables, c: Uuid, limit: int, sinceTime: Option<int>, sinceId: Option<Uuid>, page: seq<Uuid>)
    requires IsPage(t, c, limit, sinceTime, sinceId, page)
    ensures var asked := set m | m in t.messages && t.messages[m].conversation == c
                                 && (sinceTime.Some? ==> sinceTime.value < t.messages[m].timestamp)
                                 && (sinceId.Some? ==> BytesLess(sinceId.value, m));
            var size := if limit > 0 then limit else 50;
            && Elements(page) <= asked
            && |page| == (if |asked| <= size then |asked| else size)
            && (Elements(page) == asked <==> |asked| <= size)
            && (forall m, x :: m in asked && m !in page && x in page ==>
                  t.messages[x].timestamp >= t.messages[m].timestamp)
            && forall i, j :: 0 <= i < j < |page| ==> t.messages[page[i]].timestamp >= t.messages[page[j]].timestamp
  {
    hide BytesLess, Elements;
    PageOfAsked(t, c, limit, sinceTime, sinceId, page);
    assert Asked(t, c, sinceTime, sinceId)
        == set m | m in t.messages && t.messages[m].conversation == c
                   && (sinceTime.Some? ==> sinceTime.value < t.messages[m].timestamp)
                   && (sinceId.Some? ==> BytesLess(sinceId.value, m));
    forall m | m in Asked(t, c, sinceTime, sinceId) ensures Matches(t, c, sinceTime, sinceId, m) {
    }
  }

  function Reverse<T>(s: seq<T>): (r: seq<T>)
    ensures |r| == |s|
    ensures forall i :: 0 <= i < |s| ==> r[i] == s[|s| - 1 - i]
  {
    if s == [] then [] else [s[|s| - 1]] + Reverse(s[..|s| - 1])
  }

  /** One poll of a client: what the tables held, and the page that came back. */
  datatype Poll = Poll(tables: Tables, limit: int, page: seq<Uuid>)

  /** Messages are never changed and never go away. */
  ghost predicate Keeps(t: Tables, t': Tables) {
    forall m :: m in t.messages ==> m in t'.messages && t'.messages[m] == t.messages[m]
  }

  ghost function TimeOf(t: Tables, m: Uuid): int {
    if m in t.messages then t.messages[m].timestamp else 0
  }

  /** The greatest timestamp a client has seen; pages come newest first. */
  ghost function Cursor(polls: seq<Poll>): Option<int> {
    if polls == [] then None
    else
      var last := polls[|polls| - 1];
      if last.page == [] then Cursor(polls[..|polls| - 1]) else Some(TimeOf(last.tables, last.page[0]))
  }

  /** A client polls a conversation, passing the greatest timestamp it has seen. */
  ghost predicate Polling(polls: seq<Poll>, c: Uuid) {
    polls == [] ||
    var before, poll := polls[..|polls| - 1], polls[|polls| - 1];
    && Polling(before, c)
    && (before != [] ==> Keeps(before[|before| - 1].tables, poll.tables))
    && IsPage(poll.tables, c, poll.limit, Cursor(before), None, poll.page)
  }

  /** Everything the client has received, oldest first within each poll. */
  ghost function Received(polls: seq<Poll>): seq<Uuid> {
    if polls == [] then [] else Received(polls[..|polls| - 1]) + Reverse(polls[|polls| - 1].page)
  }

  ghost predicate Holds(t: Tables, c: Uuid, m: Uuid) {
    m in t.messages && t.messages[m].conversation == c
  }

  /** After a poll, no message of the conversation is ahead of the client, whether it was received or not. So nothing that
      a poll did not return is returned by a later one. */
  lemma {:induction false} NothingIsAhead(polls: seq<Poll>, c: Uuid, m: Uuid)
    requires polls != [] && Polling(polls, c) && Holds(polls[|polls| - 1].tables, c, m)
    ensures Cursor(polls).Some? && TimeOf(polls[|polls| - 1].tables, m) <= Cursor(polls).value
  {
    var before, poll := polls[..|polls| - 1], polls[|polls| - 1];
    if Matches(poll.tables, c, Cursor(before), None, m) {
      if m in poll.page {
        var i :| 0 <= i < |poll.page| && poll.page[i] == m;
        assert i > 0 ==> TimeOf(poll.tables, poll.page[0]) >= TimeOf(poll.tables, m);
      } else {
        assert |poll.page| == PageSize(poll.limit);
      }
    } else if poll.page != [] {
      assert Matches(poll.tables, c, Cursor(before), None, poll.page[0]);
    }
  }

  lemma {:induction false} ReverseElements<T>(s: seq<T>, x: T)
    ensures x in Reverse(s) <==> x in s
  {
    if s != [] {
      ReverseElements(s[..|s| - 1], x);
    }
  }

  lemma {:induction false} ReceivedAreHeld(polls: seq<Poll>, c: Uuid, m: Uuid)
    requires Polling(polls, c) && m in Received(polls)
    ensures polls != [] && Holds(polls[|polls| - 1].tables, c, m)
  {
    var before, poll := polls[..|polls| - 1], polls[|polls| - 1];
    ReverseElements(poll.page, m);
    if m in Received(before) {
      ReceivedAreHeld(before, c, m);
    } else {
      var i :| 0 <= i < |poll.page| && poll.page[i] == m;
      assert Matches(poll.tables, c, Cursor(before), None, poll.page[i]);
    }
  }

  /** The page of a poll has only messages that the client was never given, and never will be again. */
  lemma NewOnPage(polls: seq<Poll>, c: Uuid, m: Uuid)
    requires polls != [] && Polling(polls, c) && m in polls[|polls| - 1].page
    ensures var before := polls[..|polls| - 1];
            && m !in Received(before)
            && (before != [] ==> !Holds(before[|before| - 1].tables, c, m))
  {
    hide Received;
    var before, poll := polls[..|polls| - 1], polls[|polls| - 1];
    var i :| 0 <= i < |poll.page| && poll.page[i] == m;
    assert Matches(poll.tables, c, Cursor(before), None, poll.page[i]);
    if before != [] && Holds(before[|before| - 1].tables, c, m) {
      NothingIsAhead(before, c, m);
    }
    if m in Received(before) {
      ReceivedAreHeld(before, c, m);
    }
  }

  ghost predicate Distinct(s: seq<Uuid>) {
    forall i, j :: 0 <= i < j < |s| ==> s[i] != s[j]
  }

  lemma DistinctAppend(s: seq<Uuid>, page: seq<Uuid>)
    requires Distinct(s) && Distinct(page) && forall m :: m in page ==> m !in s
    ensures Distinct(s + Reverse(page))
  {
    var all := s + Reverse(page);
    forall i, j | 0 <= i < j < |all| ensures all[i] != all[j] {
      if i >= |s| {
        var x, y := |page| - 1 - (i - |s|), |page| - 1 - (j - |s|);
        assert all[i] == page[x] && all[j] == page[y] && page[y] != page[x];
      } else if j >= |s| {
        assert all[j] == page[|page| - 1 - (j - |s|)];
        assert all[i] in s && all[j] in page;
      } else {
        assert all[i] == s[i] && all[j] == s[j];
      }
    }
  }

  /** No message is received twice. */
  lemma {:induction false} NothingTwice(polls: seq<Poll>, c: Uuid)
    requires Polling(polls, c)
    ensures Distinct(Received(polls))
  {
    hide Distinct;
    if polls == [] {
      assert Distinct([]) by {
        NothingIsDistinct();
      }
    } else {
      var before, poll := polls[..|polls| - 1], polls[|polls| - 1];
      NothingTwice(before, c);
      PagesAreDistinct(poll, c, Cursor(before));
      forall m | m in poll.page ensures m !in Received(before) {
        NewOnPage(polls, c, m);
      }
      DistinctAppend(Received(before), poll.page);
    }
  }

  lemma NothingIsDistinct()
    ensures Distinct([])
  {
  }

  lemma PagesAreDistinct(poll: Poll, c: Uuid, since: Option<int>)
    requires IsPage(poll.tables, c, poll.limit, since, None, poll.page)
    ensures Distinct(poll.page)
  {
  }

  /** The poll at `j` is the first to find the message in the tables. */
  ghost predicate FirstHeld(polls: seq<Poll>, c: Uuid, j: nat, m: Uuid) {
    && j < |polls| && Holds(polls[j].tables, c, m)
    && (j > 0 ==> !Holds(polls[j - 1].tables, c, m))
  }

  /** The client had already seen a timestamp not below the message's own when the message came. */
  ghost predicate Late(polls: seq<Poll>, j: nat, m: Uuid)
    requires j < |polls|
  {
    var cursor := Cursor(polls[..j]);
    cursor.Some? && TimeOf(polls[j].tables, m) <= cursor.value
  }

  lemma PollingBefore(polls: seq<Poll>, c: Uuid, k: nat)
    requires Polling(polls, c) && k <= |polls|
    ensures Polling(polls[..k], c)
  {
    if k < |polls| {
      PollingBefore(polls[..|polls| - 1], c, k);
      assert polls[..|polls| - 1][..k] == polls[..k];
    } else {
      assert polls[..k] == polls;
    }
  }

  /** A message is received exactly if it is on the page of the first poll that could return it. */
  lemma {:induction false} ReceivedIff(polls: seq<Poll>, c: Uuid, j: nat, m: Uuid)
    requires Polling(polls, c) && FirstHeld(polls, c, j, m)
    ensures Holds(polls[|polls| - 1].tables, c, m)
    ensures m in Received(polls) <==> m in polls[j].page
  {
    var n := |polls| - 1;
    var before, poll := polls[..n], polls[n];
    ReverseElements(poll.page, m);
    if j == n {
      if m in Received(before) {
        ReceivedAreHeld(before, c, m);
      }
    } else {
      ReceivedIff(before, c, j, m);
      if m in poll.page {
        NewOnPage(polls, c, m);
      }
    }
  }

  /** What a message that came in time needs to be on the page. `Newer` are the messages that must come before it and
      `AsNew` those that may, itself included; between the two, the database decides among equal timestamps. */
  ghost function Newer(t: Tables, c: Uuid, since: Option<int>, m: Uuid): set<Uuid> {
    set x | x in Backlog(t, c, since) && TimeOf(t, x) > TimeOf(t, m)
  }

  ghost function AsNew(t: Tables, c: Uuid, since: Option<int>, m: Uuid): set<Uuid> {
    set x | x in Backlog(t, c, since) && TimeOf(t, x) >= TimeOf(t, m)
  }

  lemma PageRank(t: Tables, c: Uuid, limit: int, since: Option<int>, page: seq<Uuid>, m: Uuid)
    requires IsPage(t, c, limit, since, None, page) && m in Backlog(t, c, since)
    ensures |AsNew(t, c, since, m)| <= PageSize(limit) ==> m in page
    ensures |Newer(t, c, since, m)| >= PageSize(limit) ==> m !in page
  {
    DistinctElements(page);
    if m !in page {
      assert Matches(t, c, since, None, m);
      forall x | x in page ensures x in AsNew(t, c, since, m) {
        var i :| 0 <= i < |page| && page[i] == x;
        assert Matches(t, c, since, None, page[i]);
      }
      SubsetSize(Elements(page) + {m}, AsNew(t, c, since, m));
    } else {
      forall x | x in Newer(t, c, since, m) ensures x in page {
        assert Matches(t, c, since, None, x);
        var i :| 0 <= i < |page| && page[i] == m;
      }
      SubsetSize(Newer(t, c, since, m) + {m}, Elements(page));
    }
  }

  /** Whether a message is missed, whatever the order of commits and timestamps: a late one is; one that came in time is
      not, if it and everything as new fits on the page; it is, if the page is filled by newer ones. */
  lemma MissedWhen(polls: seq<Poll>, c: Uuid, j: nat, m: Uuid)
    requires Polling(polls, c) && FirstHeld(polls, c, j, m)
    ensures var t, size, cursor := polls[j].tables, PageSize(polls[j].limit), Cursor(polls[..j]);
            && (Late(polls, j, m) ==> m !in Received(polls))
            && (!Late(polls, j, m) && |AsNew(t, c, cursor, m)| <= size ==> m in Received(polls))
            && (|Newer(t, c, cursor, m)| >= size ==> m !in Received(polls))
            && (m !in Received(polls) <==> Late(polls, j, m) || (|polls[j].page| == size && m !in polls[j].page))
  {
    hide Received, Cursor, AsNew, Newer;
    ReceivedIff(polls, c, j, m);
    PollingBefore(polls, c, j + 1);
    assert polls[..j + 1][..j] == polls[..j];
    var t, cursor := polls[j].tables, Cursor(polls[..j]);
    if m in Backlog(t, c, cursor) {
      PageRank(t, c, polls[j].limit, cursor, polls[j].page, m);
    } else {
      assert Late(polls, j, m);
      NoLateOnPage(t, c, polls[j].limit, cursor, polls[j].page, m);
    }
  }

  lemma NoLateOnPage(t: Tables, c: Uuid, limit: int, since: Option<int>, page: seq<Uuid>, m: Uuid)
    requires IsPage(t, c, limit, since, None, page) && m !in Backlog(t, c, since)
    ensures m !in page
  {
  }

  lemma {:induction false} FirstHolding(polls: seq<Poll>, c: Uuid, m: Uuid) returns (j: nat)
    requires polls != [] && Holds(polls[|polls| - 1].tables, c, m)
    ensures FirstHeld(polls, c, j, m)
  {
    j := |polls| - 1;
    if j > 0 && Holds(polls[j - 1].tables, c, m) {
      j := FirstHolding(polls[..j], c, m);
    }
  }

  /** No message came late to the poll at `j`, and its backlog fits its page. */
  ghost predicate KeepsUpAt(polls: seq<Poll>, c: Uuid, j: nat)
    requires j < |polls|
  {
    && (forall m :: FirstHeld(polls, c, j, m) ==> !Late(polls, j, m))
    && |Backlog(polls[j].tables, c, Cursor(polls[..j]))| <= PageSize(polls[j].limit)
  }

  ghost predicate KeepsUp(polls: seq<Poll>, c: Uuid) {
    forall j :: 0 <= j < |polls| ==> KeepsUpAt(polls, c, j)
  }

  ghost predicate NothingMissed(polls: seq<Poll>, c: Uuid)
    requires polls != []
  {
    forall m :: Holds(polls[|polls| - 1].tables, c, m) ==> m in Received(polls)
  }

  lemma PageAt(polls: seq<Poll>, c: Uuid, j: nat)
    requires Polling(polls, c) && j < |polls|
    ensures IsPage(polls[j].tables, c, polls[j].limit, Cursor(polls[..j]), None, polls[j].page)
    ensures forall m :: m in Backlog(polls[j].tables, c, Cursor(polls[..j])) ==> FirstHeld(polls, c, j, m)
  {
    hide Cursor, IsPage;
    PollingBefore(polls, c, j + 1);
    assert polls[..j + 1][..j] == polls[..j];
    forall m | m in Backlog(polls[j].tables, c, Cursor(polls[..j])) ensures FirstHeld(polls, c, j, m) {
      if j > 0 && Holds(polls[j - 1].tables, c, m) {
        PollingBefore(polls, c, j);
        NothingIsAhead(polls[..j], c, m);
      }
    }
  }

  lemma KeepingUpMissesNothing(polls: seq<Poll>, c: Uuid, m: Uuid)
    requires polls != [] && Polling(polls, c) && KeepsUp(polls, c) && Holds(polls[|polls| - 1].tables, c, m)
    ensures m in Received(polls)
  {
    hide Received, Cursor, Polling;
    var j := FirstHolding(polls, c, m);
    ReceivedIff(polls, c, j, m);
    PageAt(polls, c, j);
    assert KeepsUpAt(polls, c, j);
    PageOfAsked(polls[j].tables, c, polls[j].limit, Cursor(polls[..j]), None, polls[j].page);
    assert m in Backlog(polls[j].tables, c, Cursor(polls[..j]));
  }

  lemma FallingBehindMisses(polls: seq<Poll>, c: Uuid, j: nat)
    requires polls != [] && Polling(polls, c) && j < |polls| && !KeepsUpAt(polls, c, j)
    ensures !NothingMissed(polls, c)
  {
    hide Received, Cursor, Polling;
    PageAt(polls, c, j);
    var backlog := Backlog(polls[j].tables, c, Cursor(polls[..j]));
    if m :| FirstHeld(polls, c, j, m) && Late(polls, j, m) {
      ReceivedIff(polls, c, j, m);
      NoLateOnPage(polls[j].tables, c, polls[j].limit, Cursor(polls[..j]), polls[j].page, m);
    } else {
      PageOfAsked(polls[j].tables, c, polls[j].limit, Cursor(polls[..j]), None, polls[j].page);
      var m :| m in backlog && m !in Elements(polls[j].page);
      ReceivedIff(polls, c, j, m);
    }
  }

  /** A client receives every message exactly when no message comes late to a poll and no backlog exceeds its page. */
  lemma NothingMissedIff(polls: seq<Poll>, c: Uuid)
    requires polls != [] && Polling(polls, c)
    ensures NothingMissed(polls, c) <==> KeepsUp(polls, c)
  {
    hide Received, Polling, KeepsUpAt;
    if KeepsUp(polls, c) {
      forall m | Holds(polls[|polls| - 1].tables, c, m) ensures m in Received(polls) {
        KeepingUpMissesNothing(polls, c, m);
      }
    } else {
      var j :| 0 <= j < |polls| && !KeepsUpAt(polls, c, j);
      FallingBehindMisses(polls, c, j);
    }
  }

  // ---------------------------------------------------------------------------------------------
  // Polling in order
  // ---------------------------------------------------------------------------------------------

  ghost predicate Ascending(t: Tables, s: seq<Uuid>) {
    forall i, j :: 0 <= i < j < |s| ==> TimeOf(t, s[i]) < TimeOf(t, s[j])
  }

  /** `history` is a conversation's messages, each later than the one before. */
  ghost predicate IsHistory(t: Tables, c: Uuid, history: seq<Uuid>) {
    && (forall m :: m in history <==> Holds(t, c, m))
    && Ascending(t, history)
  }

  /** No two messages of the conversation have the same timestamp. */
  ghost predicate TimesDiffer(t: Tables, c: Uuid) {
    forall m, x :: Holds(t, c, m) && Holds(t, c, x) && m != x ==> TimeOf(t, m) != TimeOf(t, x)
  }

  lemma {:induction false} ReceivedAscends(polls: seq<Poll>, c: Uuid, t: Tables)
    requires Polling(polls, c) && TimesDiffer(t, c)
    requires polls != [] ==> Keeps(polls[|polls| - 1].tables, t)
    ensures Ascending(t, Received(polls))
  {
    if polls != [] {
      var before, poll := polls[..|polls| - 1], polls[|polls| - 1];
      ReceivedAscends(before, c, t);
      var seen, page := Received(before), Reverse(poll.page);
      forall i, j | 0 <= i < j < |seen + page| ensures TimeOf(t, (seen + page)[i]) < TimeOf(t, (seen + page)[j]) {
        if i >= |seen| {
          PageAscends(poll, c, Cursor(before), t, i - |seen|, j - |seen|);
        } else if j >= |seen| {
          ReceivedAreHeld(before, c, seen[i]);
          NothingIsAhead(before, c, seen[i]);
          PageIsAhead(poll, c, Cursor(before), j - |seen|);
        }
      }
    }
  }

  lemma PageAscends(poll: Poll, c: Uuid, since: Option<int>, t: Tables, i: nat, j: nat)
    requires IsPage(poll.tables, c, poll.limit, since, None, poll.page) && i < j < |poll.page|
    requires Keeps(poll.tables, t) && TimesDiffer(t, c)
    ensures TimeOf(t, Reverse(poll.page)[i]) < TimeOf(t, Reverse(poll.page)[j])
  {
    var x, y := poll.page[|poll.page| - 1 - i], poll.page[|poll.page| - 1 - j];
    assert Matches(poll.tables, c, since, None, x) && Matches(poll.tables, c, since, None, y);
    assert Holds(t, c, x) && Holds(t, c, y);
  }

  lemma PageIsAhead(poll: Poll, c: Uuid, since: Option<int>, j: nat)
    requires IsPage(poll.tables, c, poll.limit, since, None, poll.page) && j < |poll.page| && since.Some?
    ensures Reverse(poll.page)[j] in poll.tables.messages
    ensures since.value < TimeOf(poll.tables, Reverse(poll.page)[j])
  {
    assert Matches(poll.tables, c, since, None, poll.page[|poll.page| - 1 - j]);
  }

  /** Two ascending lists of the same messages are the same list. */
  lemma {:induction false} AscendingIsUnique(t: Tables, a: seq<Uuid>, b: seq<Uuid>)
    requires Ascending(t, a) && Ascending(t, b) && forall m :: m in a <==> m in b
    ensures a == b
  {
    assert (a != [] ==> a[0] in a) && (b != [] ==> b[0] in b);
    if a != [] && b != [] {
      var x, y := a[|a| - 1], b[|b| - 1];
      assert x in b && y in a;
      assert x == y;
      var a', b' := a[..|a| - 1], b[..|b| - 1];
      forall m ensures m in a' <==> m in b' {
        assert m in a <==> m in a' || m == x;
        assert m in b <==> m in b' || m == y;
      }
      AscendingIsUnique(t, a', b');
    }
  }

  lemma HistoryTimesDiffer(t: Tables, c: Uuid, history: seq<Uuid>)
    requires IsHistory(t, c, history)
    ensures TimesDiffer(t, c)
  {
    forall m, x | Holds(t, c, m) && Holds(t, c, x) && m != x ensures TimeOf(t, m) != TimeOf(t, x) {
      assert m in history && x in history;
    }
  }

  /** When timestamps differ, the reversed polls add up to the whole history, in order, without loss or duplicate, exactly
      when no message comes late to a poll and no backlog exceeds its page. */
  lemma PollingIsComplete(polls: seq<Poll>, c: Uuid, history: seq<Uuid>)
    requires polls != [] && Polling(polls, c) && IsHistory(polls[|polls| - 1].tables, c, history)
    ensures Received(polls) == history <==> KeepsUp(polls, c)
  {
    hide Received, Polling, KeepsUp, Ascending, TimesDiffer;
    var t := polls[|polls| - 1].tables;
    HistoryTimesDiffer(t, c, history);
    ReceivedAscends(polls, c, t);
    NothingMissedIff(polls, c);
    if KeepsUp(polls, c) {
      forall m ensures m in Received(polls) <==> m in history {
        if m in Received(polls) {
          ReceivedAreHeld(polls, c, m);
        }
      }
      AscendingIsUnique(t, Received(polls), history);
    }
  }

  // ---------------------------------------------------------------------------------------------
  // Histories of a run are histories to poll
  // ---------------------------------------------------------------------------------------------

  lemma {:induction false} CommitsGrow(actions: seq<Action>, more: seq<Action>)
    ensures After(actions).committed <= After(actions + more).committed
    ensures forall m :: m in After(actions).tables.messages ==>
              m in After(actions + more).tables.messages
              && After(actions + more).tables.messages[m] == After(actions).tables.messages[m]
  {
    if more == [] {
      assert actions + more == actions;
    } else {
      hide Next, After;
      CommitsGrow(actions, more[..|more| - 1]);
      var s, action := After(actions + more[..|more| - 1]), more[|more| - 1];
      AfterSnoc(actions, more);
      ActionGrows(s, action);
    }
  }

  lemma AfterSnoc(actions: seq<Action>, more: seq<Action>)
    requires more != []
    ensures After(actions + more) == Next(After(actions + more[..|more| - 1]), more[|more| - 1])
  {
    hide Next;
    assert (actions + more)[..|actions + more| - 1] == actions + more[..|more| - 1];
  }

  lemma ActionGrows(s: State, action: Action)
    ensures s.committed <= Next(s, action).committed
    ensures forall m :: m in s.tables.messages ==>
              m in Next(s, action).tables.messages && Next(s, action).tables.messages[m] == s.tables.messages[m]
  {
    if action.Step? && action.call < |s.calls| {
      hide Execute;
      EffectOnMessages(s.tables, s.calls[action.call], action.id, action.now);
    }
  }

  lemma {:induction false} HistoryOfPrefix(messages: map<Uuid, Message>, committed: seq<Uuid>, more: seq<Uuid>, c: Uuid)
    ensures History(messages, committed, c) <= History(messages, committed + more, c)
  {
    if more == [] {
      assert committed + more == committed;
    } else {
      HistoryOfPrefix(messages, committed, more[..|more| - 1], c);
      assert (committed + more)[..|committed + more| - 1] == committed + more[..|more| - 1];
    }
  }

  /** As a run goes on, a conversation's history only grows at its end. */
  lemma HistoryGrows(actions: seq<Action>, more: seq<Action>, c: Uuid)
    ensures var s, later := After(actions), After(actions + more);
            History(s.tables.messages, s.committed, c) <= History(later.tables.messages, later.committed, c)
  {
    hide After, History, LastIsCurrent;
    var s, later := After(actions), After(actions + more);
    EveryRunKeepsMessages(actions);
    CommitsGrow(actions, more);
    HistoryFrame(s.tables.messages, later.tables.messages, s.committed, c);
    assert later.committed == s.committed + later.committed[|s.committed|..];
    HistoryOfPrefix(later.tables.messages, s.committed, later.committed[|s.committed|..], c);
  }

  /** A run's history of a conversation is what a client can poll, provided its timestamps strictly increase. */
  lemma RunHistoryIsHistory(actions: seq<Action>, c: Uuid)
    requires var s := After(actions);
             var history := History(s.tables.messages, s.committed, c);
             forall i, j ::
               0 <= i < j < |history| && history[i] in s.tables.messages && history[j] in s.tables.messages ==>
               s.tables.messages[history[i]].timestamp < s.tables.messages[history[j]].timestamp
    ensures var s := After(actions);
            IsHistory(s.tables, c, History(s.tables.messages, s.committed, c))
  {
    hide After, History, LastIsCurrent;
    EveryRunKeepsMessages(actions);
    var s := After(actions);
    var history := History(s.tables.messages, s.committed, c);
    forall m ensures m in history <==> m in s.tables.messages && s.tables.messages[m].conversation == c {
      HistoryIsMessages(s.tables.messages, s.committed, c, m);
    }
    forall i | 0 <= i < |history| ensures history[i] in s.tables.messages {
      assert history[i] in history;
    }
  }

  /** The tables that a run shows to polls keep the messages. */
  lemma RunsKeepMessages(actions: seq<Action>, more: seq<Action>)
    ensures Keeps(After(actions).tables, After(actions + more).tables)
  {
    hide After;
    CommitsGrow(actions, more);
  }
}

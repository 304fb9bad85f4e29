/**
  Email verification over the users table.

  Registering, resending, verifying and logging in are sequences of SQL statements; here any number of such calls
  interleave, any statement may fail or take effect with its reply lost, and a call may stop between two statements. The
  log records what the statements did: a token written for a user, a token redeemed, a login let through. The theorems
  relate the log to itself and to the table, in every reachable state.
 */
module EmailVerification {
  import opened Wrappers
  import opened Text
  import opened Uuids

  // ---------------------------------------------------------------------------------------------
  // The users table
  // ---------------------------------------------------------------------------------------------

  datatype User = User(email: string, verified: bool, token: Option<string>, expiresAt: int)

  type Users = map<Uuid, User>

  datatype UserError = InvalidInput | EmailTaken | NotFound | AlreadyVerified | InvalidCredentials | NotVerified

  function Lower(c: char): char {
    if 'A' <= c <= 'Z' then (c as int + 32) as char else c
  }

  /** Emails are stored and looked up trimmed and in lower case. */
  function NormalEmail(email: string): string {
    var t := Trim(email);
    seq(|t|, i requires 0 <= i < |t| => Lower(t[i]))
  }

  /** The email of a user, character by character: the given one, trimmed, with `A` to `Z` in lower case. */
  ghost predicate HasEmail(user: User, email: string) {
    && |user.email| == |Trim(email)|
    && forall i :: 0 <= i < |Trim(email)| ==>
         user.email[i] == if 'A' <= Trim(email)[i] <= 'Z' then (Trim(email)[i] as int + 32) as char else Trim(email)[i]
  }

  lemma HasEmailIff(user: User, email: string)
    ensures HasEmail(user, email) <==> user.email == NormalEmail(email)
  {
    hide Trim;
  }

  ghost function SelectByEmail(users: Users, email: string): (found: Option<Uuid>)
    ensures found.Some? ==> found.value in users && users[found.value].email == email
    ensures found.None? ==> forall u :: u in users ==> users[u].email != email
  {
    if u :| u in users && users[u].email == email then Some(u) else None
  }

  function InsertUser(users: Users, id: Uuid, email: string): Result<Users, UserError> {
    if id in users || (exists u :: u in users && users[u].email == email) then Failure(EmailTaken)
    else Success(users[id := User(email, false, None, 0)])
  }

  function WriteToken(users: Users, user: Uuid, token: string, expiresAt: int): Result<Users, UserError> {
    if user !in users then Failure(NotFound)
    else Success(users[user := users[user].(token := Some(token), expiresAt := expiresAt)])
  }

  predicate Redeemable(user: User, token: string, now: int) {
    user.token == Some(token) && now < user.expiresAt
  }

  /** One UPDATE: every row with the token, if it has not expired, becomes verified and loses the token. */
  function RedeemToken(users: Users, token: string, now: int): Users {
    map u | u in users ::
      if Redeemable(users[u], token, now) then users[u].(verified := true, token := None, expiresAt := 0)
      else users[u]
  }

  /** The row that the UPDATE returns. */
  ghost function Redeemer(users: Users, token: string, now: int): (found: Option<Uuid>)
    ensures found.Some? ==> found.value in users && Redeemable(users[found.value], token, now)
    ensures found.None? ==> forall u :: u in users ==> !Redeemable(users[u], token, now)
  {
    if u :| u in users && Redeemable(users[u], token, now) then Some(u) else None
  }

  // ---------------------------------------------------------------------------------------------
  // Calls
  // ---------------------------------------------------------------------------------------------

  datatype Request =
    | Register(email: string, password: string)
    | Resend(email: string)
    | Verify(text: string)
    | LogIn(email: string, password: string)

  datatype Pc =
    | InsertRow | SelectRow | WriteRow(user: Uuid) | RedeemRow | CheckRow
    | Registered(user: Uuid) | Resent(user: Uuid) | Verified(user: Uuid) | LoggedIn(user: Uuid)
    | Failed(error: UserError) | Stopped

  datatype Call = Call(request: Request, pc: Pc)

  /** A request with blank input fails before its first statement. */
  function Start(request: Request): Call {
    var invalid :=
      match request
      case Register(email, password) => Blank(email) || password == ""
      case Resend(email) => Blank(email)
      case Verify(text) => Blank(text)
      case LogIn(email, password) => Blank(email) || password == "";
    var first :=
      match request
      case Register(_, _) => InsertRow
      case Resend(_) => SelectRow
      case Verify(_) => RedeemRow
      case LogIn(_, _) => CheckRow;
    Call(request, if invalid then Failed(InvalidInput) else first)
  }

  /** What the generators, the clock and the password check return during a statement. */
  datatype Supply = Supply(id: Uuid, token: string, now: int, passwordMatches: bool)

  datatype Event =
    | TokenWritten(user: Uuid, token: string, expiresAt: int)
    | TokenRedeemed(user: Uuid, token: string, at: int)
    | LoginPassed(user: Uuid)

  datatype State = State(users: Users, calls: seq<Call>, log: seq<Event>)

  const NOTHING := State(map[], [], [])

  /** Random tokens do not repeat. */
  ghost predicate Fresh(log: seq<Event>, token: string) {
    forall i :: 0 <= i < |log| && log[i].TokenWritten? ==> log[i].token != token
  }

  /** The next statement of a call: the table, the call and the log after it. */
  ghost function Execute(s: State, call: Call, ttl: int, supply: Supply): (Users, Call, seq<Event>) {
    var same := (s.users, call, s.log);
    match call.pc
    case InsertRow =>
      if !call.request.Register? then same
      else
        (match InsertUser(s.users, supply.id, NormalEmail(call.request.email))
         case Failure(e) => (s.users, call.(pc := Failed(e)), s.log)
         case Success(users) => (users, call.(pc := WriteRow(supply.id)), s.log))
    case SelectRow =>
      if !call.request.Resend? then same
      else
        (match SelectByEmail(s.users, NormalEmail(call.request.email))
         case None => (s.users, call.(pc := Failed(NotFound)), s.log)
         case Some(u) =>
           (s.users, call.(pc := if s.users[u].verified then Failed(AlreadyVerified) else WriteRow(u)), s.log))
    case WriteRow(u) =>
      if !Fresh(s.log, supply.token) then same
      else
        (match WriteToken(s.users, u, supply.token, supply.now + ttl)
         case Failure(e) => (s.users, call.(pc := Failed(e)), s.log)
         case Success(users) =>
           (users, call.(pc := if call.request.Register? then Registered(u) else Resent(u)),
            s.log + [TokenWritten(u, supply.token, supply.now + ttl)]))
    case RedeemRow =>
      if !call.request.Verify? then same
      else
        var token := Trim(call.request.text);
        (match Redeemer(s.users, token, supply.now)
         case None => (s.users, call.(pc := Failed(NotFound)), s.log)
         case Some(u) =>
           (RedeemToken(s.users, token, supply.now), call.(pc := Verified(u)),
            s.log + [TokenRedeemed(u, token, supply.now)]))
    case CheckRow =>
      if !call.request.LogIn? then same
      else
        (match SelectByEmail(s.users, NormalEmail(call.request.email))
         case None => (s.users, call.(pc := Failed(NotFound)), s.log)
         case Some(u) =>
           if !supply.passwordMatches then (s.users, call.(pc := Failed(InvalidCredentials)), s.log)
           else if !s.users[u].verified then (s.users, call.(pc := Failed(NotVerified)), s.log)
           else (s.users, call.(pc := LoggedIn(u)), s.log + [LoginPassed(u)]))
    case _ => same
  }

  predicate Ended(pc: Pc) {
    pc.Registered? || pc.Resent? || pc.Verified? || pc.LoggedIn? || pc.Failed? || pc.Stopped?
  }

  datatype Action =
    | Begin(request: Request)
    | Step(call: nat, supply: Supply, heard: bool := true)
    | Stop(call: nat)

  ghost function Next(s: State, ttl: int, action: Action): State {
    match action
    case Begin(request) => s.(calls := s.calls + [Start(request)])
    case Stop(i) =>
      if i < |s.calls| && !Ended(s.calls[i].pc) then s.(calls := s.calls[i := s.calls[i].(pc := Stopped)]) else s
    case Step(i, supply, heard) =>
      if i >= |s.calls| then s
      else
        var (users, call, log) := Execute(s, s.calls[i], ttl, supply);
        State(users, s.calls[i := if heard || Ended(s.calls[i].pc) then call else call.(pc := Stopped)], log)
  }

  ghost function After(ttl: int, actions: seq<Action>): State {
    if actions == [] then NOTHING
    else Next(After(ttl, actions[..|actions| - 1]), ttl, actions[|actions| - 1])
  }

  // ---------------------------------------------------------------------------------------------
  // What the log says about the table
  // ---------------------------------------------------------------------------------------------

  predicate Settles(e: Event, user: Uuid) {
    (e.TokenWritten? || e.TokenRedeemed?) && e.user == user
  }

  /** The token a user can still redeem, according to the log: the last one written, unless it has been redeemed. */
  function Pending(log: seq<Event>, user: Uuid): Option<(string, int)> {
    if log == [] then None
    else
      var e := log[|log| - 1];
      if !Settles(e, user) then Pending(log[..|log| - 1], user)
      else if e.TokenWritten? then Some((e.token, e.expiresAt))
      else None
  }

  predicate EverRedeemed(log: seq<Event>, user: Uuid) {
    exists i :: 0 <= i < |log| && log[i].TokenRedeemed? && log[i].user == user
  }

  /** The event at `i` wrote this token, and no later event wrote or redeemed a token of this user. */
  ghost predicate LastWritten(log: seq<Event>, i: nat, user: Uuid, token: string, expiresAt: int) {
    && i < |log| && log[i] == TokenWritten(user, token, expiresAt)
    && forall k :: i < k < |log| ==> !Settles(log[k], user)
  }

  lemma {:induction false} LastWrittenIsPending(log: seq<Event>, i: nat, user: Uuid, token: string, expiresAt: int)
    requires LastWritten(log, i, user, token, expiresAt)
    ensures Pending(log, user) == Some((token, expiresAt))
  {
    if i < |log| - 1 {
      LastWrittenIsPending(log[..|log| - 1], i, user, token, expiresAt);
    }
  }

  lemma {:induction false} PendingWasWritten(log: seq<Event>, user: Uuid, token: string, expiresAt: int)
    returns (i: nat)
    requires Pending(log, user) == Some((token, expiresAt))
    ensures LastWritten(log, i, user, token, expiresAt)
  {
    var n := |log| - 1;
    if Settles(log[n], user) {
      i := n;
    } else {
      i := PendingWasWritten(log[..n], user, token, expiresAt);
    }
  }

  ghost predicate RowMatches(log: seq<Event>, u: Uuid, row: User) {
    && Pending(log, u) == (if row.token.Some? then Some((row.token.value, row.expiresAt)) else None)
    && (row.verified <==> EverRedeemed(log, u))
  }

  ghost predicate TableMatches(s: State) {
    forall u :: u in s.users ==> RowMatches(s.log, u, s.users[u])
  }

  ghost predicate LogIsOfUsers(s: State) {
    forall i :: 0 <= i < |s.log| ==> s.log[i].user in s.users
  }

  ghost predicate TokensAreUnique(log: seq<Event>) {
    forall i, j :: 0 <= i < j < |log| && log[i].TokenWritten? && log[j].TokenWritten? ==> log[i].token != log[j].token
  }

  /** A redeemed token was the pending one and had not expired; a login came after a redemption. */
  ghost predicate Justified(before: seq<Event>, e: Event) {
    match e
    case TokenWritten(_, _, _) => true
    case TokenRedeemed(user, token, at) =>
      var pending := Pending(before, user); pending.Some? && pending.value.0 == token && at < pending.value.1
    case LoginPassed(user) => EverRedeemed(before, user)
  }

  ghost predicate EventsAreJustified(log: seq<Event>) {
    forall j :: 0 <= j < |log| ==> Justified(log[..j], log[j])
  }

  ghost predicate EmailsAreUnique(users: Users) {
    forall u, v :: u in users && v in users && users[u].email == users[v].email ==> u == v
  }

  ghost predicate Inv(s: State) {
    && TableMatches(s) && LogIsOfUsers(s) && EmailsAreUnique(s.users)
    && TokensAreUnique(s.log) && EventsAreJustified(s.log)
  }

  // ---------------------------------------------------------------------------------------------
  // The invariant holds in every reachable state
  // ---------------------------------------------------------------------------------------------

  lemma {:induction false} StrangersHaveNoHistory(log: seq<Event>, u: Uuid)
    requires forall i :: 0 <= i < |log| ==> log[i].user != u
    ensures Pending(log, u) == None && !EverRedeemed(log, u)
  {
    if log != [] {
      StrangersHaveNoHistory(log[..|log| - 1], u);
    }
  }

  lemma LogSnoc(log: seq<Event>, e: Event, u: Uuid)
    ensures Pending(log + [e], u) ==
            if !Settles(e, u) then Pending(log, u)
            else if e.TokenWritten? then Some((e.token, e.expiresAt)) else None
    ensures EverRedeemed(log + [e], u) <==> EverRedeemed(log, u) || (e.TokenRedeemed? && e.user == u)
  {
  }

  lemma JustifiedSnoc(log: seq<Event>, e: Event)
    requires EventsAreJustified(log) && Justified(log, e)
    ensures EventsAreJustified(log + [e])
  {
    hide Justified;
    var after := log + [e];
    forall j | 0 <= j < |after| ensures Justified(after[..j], after[j]) {
      if j < |log| {
        assert after[..j] == log[..j];
      } else {
        assert after[..j] == log;
      }
    }
  }

  /** Two rows never hold the same token. */
  lemma OneHolder(s: State, u: Uuid, v: Uuid, token: string)
    requires Inv(s) && u in s.users && v in s.users
    requires s.users[u].token == Some(token) && s.users[v].token == Some(token)
    ensures u == v
  {
    hide Pending, EverRedeemed, EventsAreJustified;
    assert RowMatches(s.log, u, s.users[u]) && RowMatches(s.log, v, s.users[v]);
    var i := PendingWasWritten(s.log, u, token, s.users[u].expiresAt);
    var j := PendingWasWritten(s.log, v, token, s.users[v].expiresAt);
  }

  lemma InsertKeepsInv(s: State, id: Uuid, email: string)
    requires Inv(s) && InsertUser(s.users, id, email).Success?
    ensures Inv(s.(users := InsertUser(s.users, id, email).value))
  {
    hide Pending, EverRedeemed, EventsAreJustified, TokensAreUnique;
    StrangersHaveNoHistory(s.log, id);
  }

  lemma WriteKeepsInv(s: State, u: Uuid, token: string, expiresAt: int)
    requires Inv(s) && Fresh(s.log, token) && u in s.users
    ensures Inv(s.(users := WriteToken(s.users, u, token, expiresAt).value,
                   log := s.log + [TokenWritten(u, token, expiresAt)]))
  {
    hide Pending, EverRedeemed, EventsAreJustified;
    var e := TokenWritten(u, token, expiresAt);
    JustifiedSnoc(s.log, e);
    forall v | v in s.users ensures RowMatches(s.log + [e], v, WriteToken(s.users, u, token, expiresAt).value[v]) {
      LogSnoc(s.log, e, v);
      assert RowMatches(s.log, v, s.users[v]);
    }
  }

  lemma RedeemKeepsInv(s: State, token: string, now: int)
    requires Inv(s) && Redeemer(s.users, token, now).Some?
    ensures var u := Redeemer(s.users, token, now).value;
            Inv(s.(users := RedeemToken(s.users, token, now), log := s.log + [TokenRedeemed(u, token, now)]))
  {
    hide Pending, EverRedeemed, EventsAreJustified, Redeemer;
    var u := Redeemer(s.users, token, now).value;
    var e := TokenRedeemed(u, token, now);
    assert RowMatches(s.log, u, s.users[u]);
    JustifiedSnoc(s.log, e);
    forall v | v in s.users ensures RowMatches(s.log + [e], v, RedeemToken(s.users, token, now)[v]) {
      LogSnoc(s.log, e, v);
      assert RowMatches(s.log, v, s.users[v]);
      if Redeemable(s.users[v], token, now) {
        OneHolder(s, u, v, token);
      }
    }
  }

  lemma LoginKeepsInv(s: State, u: Uuid)
    requires Inv(s) && u in s.users && s.users[u].verified
    ensures Inv(s.(log := s.log + [LoginPassed(u)]))
  {
    hide Pending, EverRedeemed, EventsAreJustified;
    var e := LoginPassed(u);
    assert RowMatches(s.log, u, s.users[u]);
    JustifiedSnoc(s.log, e);
    forall v | v in s.users ensures RowMatches(s.log + [e], v, s.users[v]) {
      LogSnoc(s.log, e, v);
      assert RowMatches(s.log, v, s.users[v]);
    }
  }

  lemma NextKeepsInv(s: State, ttl: int, action: Action)
    requires Inv(s)
    ensures Inv(Next(s, ttl, action))
  {
    hide Pending, EverRedeemed, EventsAreJustified, TokensAreUnique, RowMatches, NormalEmail, Trim;
    match action
    case Begin(_) =>
    case Stop(_) =>
    case Step(i, supply, _) =>
      if i < |s.calls| {
        var request := s.calls[i].request;
        match s.calls[i].pc {
          case InsertRow =>
            if request.Register? && InsertUser(s.users, supply.id, NormalEmail(request.email)).Success? {
              InsertKeepsInv(s, supply.id, NormalEmail(request.email));
            }
          case WriteRow(u) =>
            if Fresh(s.log, supply.token) && u in s.users {
              WriteKeepsInv(s, u, supply.token, supply.now + ttl);
            }
          case RedeemRow =>
            if request.Verify? && Redeemer(s.users, Trim(request.text), supply.now).Some? {
              RedeemKeepsInv(s, Trim(request.text), supply.now);
            }
          case CheckRow =>
            if request.LogIn? {
              var found := SelectByEmail(s.users, NormalEmail(request.email));
              if found.Some? && s.users[found.value].verified {
                LoginKeepsInv(s, found.value);
              }
            }
          case _ =>
        }
      }
  }

  lemma {:induction false} EveryRunKeepsInv(ttl: int, actions: seq<Action>)
    ensures Inv(After(ttl, actions))
  {
    if actions != [] {
      EveryRunKeepsInv(ttl, actions[..|actions| - 1]);
      hide Inv, Next;
      NextKeepsInv(After(ttl, actions[..|actions| - 1]), ttl, actions[|actions| - 1]);
    }
  }

  // ---------------------------------------------------------------------------------------------
  // Guarantees
  // ---------------------------------------------------------------------------------------------

  /** A token is redeemed at most once in a run. */
  lemma TokensWorkOnce(ttl: int, actions: seq<Action>, i: nat, j: nat)
    requires i < j < |After(ttl, actions).log|
    requires After(ttl, actions).log[i].TokenRedeemed? && After(ttl, actions).log[j].TokenRedeemed?
    ensures After(ttl, actions).log[i].token != After(ttl, actions).log[j].token
  {
    hide After, Pending, EverRedeemed, TableMatches;
    EveryRunKeepsInv(ttl, actions);
    var log := After(ttl, actions).log;
    var a := RedemptionFollowsWriting(ttl, actions, i);
    var b := RedemptionFollowsWriting(ttl, actions, j);
    assert Settles(log[i], log[i].user);
    assert log[i].token == log[j].token ==> a == b;
  }

  /** A redemption uses the token that was last written for that user, before it expires, and for the first time since
      it was written. */
  lemma RedemptionFollowsWriting(ttl: int, actions: seq<Action>, j: nat) returns (i: nat)
    requires j < |After(ttl, actions).log| && After(ttl, actions).log[j].TokenRedeemed?
    ensures var log := After(ttl, actions).log;
            && i < j && log[i].TokenWritten? && log[i].user == log[j].user && log[i].token == log[j].token
            && log[j].at < log[i].expiresAt
            && forall k :: i < k < j ==> !Settles(log[k], log[j].user)
  {
    hide After, Pending, EverRedeemed, TableMatches;
    EveryRunKeepsInv(ttl, actions);
    var log := After(ttl, actions).log;
    assert Justified(log[..j], log[j]);
    var (token, expiresAt) := Pending(log[..j], log[j].user).value;
    i := PendingWasWritten(log[..j], log[j].user, token, expiresAt);
  }

  /** Every login that got through comes after a redemption by the same user. */
  lemma LoginFollowsRedemption(ttl: int, actions: seq<Action>, j: nat)
    requires j < |After(ttl, actions).log| && After(ttl, actions).log[j].LoginPassed?
    ensures EverRedeemed(After(ttl, actions).log[..j], After(ttl, actions).log[j].user)
  {
    hide After, Pending, EverRedeemed, TableMatches;
    EveryRunKeepsInv(ttl, actions);
    var log := After(ttl, actions).log;
    assert Justified(log[..j], log[j]);
  }

  /** A user is verified exactly when a token of theirs has been redeemed. */
  lemma VerifiedIffRedeemed(ttl: int, actions: seq<Action>, u: Uuid)
    requires u in After(ttl, actions).users
    ensures After(ttl, actions).users[u].verified <==> EverRedeemed(After(ttl, actions).log, u)
  {
    hide After, Pending, EverRedeemed;
    EveryRunKeepsInv(ttl, actions);
    assert RowMatches(After(ttl, actions).log, u, After(ttl, actions).users[u]);
  }

  lemma {:induction false} LogGrows(ttl: int, actions: seq<Action>, more: seq<Action>)
    ensures After(ttl, actions).log <= After(ttl, actions + more).log
    ensures After(ttl, actions).users.Keys <= After(ttl, actions + more).users.Keys
  {
    if more == [] {
      assert actions + more == actions;
    } else {
      LogGrows(ttl, actions, more[..|more| - 1]);
      assert (actions + more)[..|actions + more| - 1] == actions + more[..|more| - 1];
      OneStepGrows(After(ttl, actions + more[..|more| - 1]), ttl, more[|more| - 1]);
    }
  }

  lemma OneStepGrows(s: State, ttl: int, action: Action)
    ensures s.log <= Next(s, ttl, action).log
    ensures s.users.Keys <= Next(s, ttl, action).users.Keys
  {
  }

  /** A verified email stays verified, however the run goes on. */
  lemma VerifiedForGood(ttl: int, actions: seq<Action>, more: seq<Action>, u: Uuid)
    requires u in After(ttl, actions).users && After(ttl, actions).users[u].verified
    ensures u in After(ttl, actions + more).users && After(ttl, actions + more).users[u].verified
  {
    hide After;
    LogGrows(ttl, actions, more);
    VerifiedIffRedeemed(ttl, actions, u);
    VerifiedIffRedeemed(ttl, actions + more, u);
    var log, log' := After(ttl, actions).log, After(ttl, actions + more).log;
    var i :| 0 <= i < |log| && log[i].TokenRedeemed? && log[i].user == u;
    assert log'[i] == log[i];
    assert u in After(ttl, actions).users.Keys;
  }

  /** When a call presents a text, it verifies user `u` exactly when the trimmed text is the token last written for `u`,
      not redeemed since and not expired; and no row but that one changes. */
  lemma VerifiesIffPending(ttl: int, actions: seq<Action>, i: nat, supply: Supply, u: Uuid)
    requires i < |After(ttl, actions).calls|
    requires After(ttl, actions).calls[i].request.Verify? && After(ttl, actions).calls[i].pc == RedeemRow
    ensures var s := After(ttl, actions);
            var s' := Next(s, ttl, Step(i, supply));
            var pending := Pending(s.log, u);
            && (s'.calls[i].pc == Verified(u) <==>
                  u in s.users && pending.Some? && pending.value.0 == Trim(s.calls[i].request.text)
                  && supply.now < pending.value.1)
            && (s'.calls[i].pc.Failed? ==> s'.users == s.users)
            && s'.users.Keys == s.users.Keys
            && (u in s.users && s'.users[u] != s.users[u] ==> s'.calls[i].pc == Verified(u) && s'.users[u].verified)
  {
    hide After, Pending, EverRedeemed, TokensAreUnique, EventsAreJustified, Trim, NormalEmail;
    EveryRunKeepsInv(ttl, actions);
    var s := After(ttl, actions);
    var token := Trim(s.calls[i].request.text);
    var found := Redeemer(s.users, token, supply.now);
    if u in s.users {
      assert RowMatches(s.log, u, s.users[u]);
      if Redeemable(s.users[u], token, supply.now) {
        OneHolder(s, u, found.value, token);
      }
    }
  }
}

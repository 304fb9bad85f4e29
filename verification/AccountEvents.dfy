/** What each event in the log of the accounts goes back to: a statement of a call, and what its user's row then was. */
module AccountEvents {
  import opened Wrappers
  import opened Text
  import opened Uuids
  import opened EmailVerification

  /** The action at `k` is the statement that logged the event at `j`. */
  ghost predicate LoggedAt(ttl: int, actions: seq<Action>, j: nat, k: nat) {
    && k < |actions| && actions[k].Step? && actions[k].call < |After(ttl, actions[..k]).calls|
    && j < |After(ttl, actions).log| && |After(ttl, actions[..k]).log| == j
    && After(ttl, actions[..k + 1]).log == After(ttl, actions[..k]).log + [After(ttl, actions).log[j]]
  }

  /** Every event was logged by one statement. */
  lemma {:induction false} EveryEventWasLogged(ttl: int, actions: seq<Action>, j: nat) returns (k: nat)
    requires j < |After(ttl, actions).log|
    ensures LoggedAt(ttl, actions, j, k)
  {
    var n := |actions| - 1;
    hide Execute;
    LogsOne(After(ttl, actions[..n]), ttl, actions[n]);
    if j < |After(ttl, actions[..n]).log| {
      k := EveryEventWasLogged(ttl, actions[..n], j);
      assert actions[..n][..k] == actions[..k] && actions[..n][..k + 1] == actions[..k + 1];
    } else {
      k := n;
      assert actions[..n + 1] == actions;
    }
  }

  lemma LogsOne(s: State, ttl: int, action: Action)
    ensures var log := Next(s, ttl, action).log;
            || log == s.log
            || (action.Step? && action.call < |s.calls| && |log| == |s.log| + 1 && log == s.log + [log[|s.log|]])
  {
  }

  /** A call that has got past its start has a request with an email or a text that is not blank, and a password. */
  predicate Filled(request: Request) {
    match request
    case Register(email, password) => !Blank(email) && password != ""
    case Resend(email) => !Blank(email)
    case Verify(text) => !Blank(text)
    case LogIn(email, password) => !Blank(email) && password != ""
  }

  /** What a call is doing, and about whom, at its last statement. */
  ghost predicate AtWork(users: Users, call: Call) {
    && (Ended(call.pc) || Filled(call.request))
    && match call.pc
       case InsertRow => call.request.Register?
       case SelectRow => call.request.Resend?
       case WriteRow(u) =>
         && u in users && (call.request.Register? || call.request.Resend?)
         && HasEmail(users[u], call.request.email)
       case RedeemRow => call.request.Verify?
       case CheckRow => call.request.LogIn?
       case _ => true
  }

  /** Rows keep their email, and none goes away. */
  ghost predicate KeepsEmails(users: Users, users': Users) {
    forall u :: u in users ==> u in users' && users'[u].email == users[u].email
  }

  lemma EmailStays(users: Users, users': Users, call: Call)
    requires KeepsEmails(users, users') && AtWork(users, call)
    ensures AtWork(users', call)
  {
    hide Trim, Blank;
    if call.pc.WriteRow? {
      HasEmailIff(users[call.pc.user], call.request.email);
      HasEmailIff(users'[call.pc.user], call.request.email);
    }
  }

  lemma StatementKeepsWork(s: State, call: Call, ttl: int, supply: Supply)
    requires AtWork(s.users, call)
    ensures var (users, call', log) := Execute(s, call, ttl, supply);
            KeepsEmails(s.users, users) && AtWork(users, call') && call'.request == call.request
  {
    hide Trim, Blank, NormalEmail, HasEmail;
    forall user: User, email ensures HasEmail(user, email) <==> user.email == NormalEmail(email) {
      HasEmailIff(user, email);
    }
  }

  lemma {:induction false} AllAreAtWork(ttl: int, actions: seq<Action>, i: nat)
    requires i < |After(ttl, actions).calls|
    ensures AtWork(After(ttl, actions).users, After(ttl, actions).calls[i])
  {
    var n := |actions| - 1;
    var s, action := After(ttl, actions[..n]), actions[n];
    forall j | 0 <= j < |s.calls| ensures AtWork(s.users, s.calls[j]) {
      AllAreAtWork(ttl, actions[..n], j);
    }
    hide Execute, HasEmail, Trim;
    match action
    case Begin(request) =>
    case Stop(_) =>
    case Step(j, supply, heard) =>
      if j < |s.calls| {
        StatementKeepsWork(s, s.calls[j], ttl, supply);
        if i != j {
          EmailStays(s.users, After(ttl, actions).users, s.calls[i]);
        }
      }
  }

  /** What the statement at work writes into the log, and why. */
  lemma EventSays(s: State, call: Call, ttl: int, supply: Supply, e: Event)
    requires AtWork(s.users, call) && Execute(s, call, ttl, supply).2 == s.log + [e]
    ensures e.user in s.users && Filled(call.request)
    ensures match e
            case TokenWritten(u, token, expiresAt) =>
              && (call.request.Register? || call.request.Resend?) && HasEmail(s.users[u], call.request.email)
              && token == supply.token && expiresAt == supply.now + ttl
            case TokenRedeemed(u, token, at) =>
              && call.request.Verify? && Trim(call.request.text) == token && at == supply.now
              && s.users[u].token == Some(token) && supply.now < s.users[u].expiresAt
            case LoginPassed(u) =>
              && call.request.LogIn? && HasEmail(s.users[u], call.request.email)
              && supply.passwordMatches && s.users[u].verified
  {
    hide Trim, Blank, NormalEmail, HasEmail;
    forall user: User, email ensures HasEmail(user, email) <==> user.email == NormalEmail(email) {
      HasEmailIff(user, email);
    }
    assert s.log + [e] != s.log;
    assert (s.log + [e])[|s.log|] == e;
  }

  lemma LoggedEventSays(ttl: int, actions: seq<Action>, j: nat) returns (k: nat)
    requires j < |After(ttl, actions).log|
    ensures LoggedAt(ttl, actions, j, k)
    ensures var s := After(ttl, actions[..k]);
            var call, supply, e := s.calls[actions[k].call], actions[k].supply, After(ttl, actions).log[j];
            AtWork(s.users, call) && Execute(s, call, ttl, supply).2 == s.log + [e]
  {
    hide Execute, AtWork;
    k := EveryEventWasLogged(ttl, actions, j);
    assert actions[..k + 1][..k] == actions[..k];
    AllAreAtWork(ttl, actions[..k], actions[k].call);
  }

  /** Every login that got through was let through by the step of a call that named that user's email and a password,
      whose check matched, and the user was verified then. */
  lemma LoginsHadThePassword(ttl: int, actions: seq<Action>, j: nat) returns (k: nat)
    requires j < |After(ttl, actions).log| && After(ttl, actions).log[j].LoginPassed?
    ensures LoggedAt(ttl, actions, j, k)
    ensures var s, u := After(ttl, actions[..k]), After(ttl, actions).log[j].user;
            var request := s.calls[actions[k].call].request;
            && request.LogIn? && !Blank(request.email) && request.password != ""
            && u in s.users && HasEmail(s.users[u], request.email) && s.users[u].verified
            && actions[k].supply.passwordMatches
  {
    hide After, Execute, AtWork, HasEmail;
    k := LoggedEventSays(ttl, actions, j);
    var s := After(ttl, actions[..k]);
    EventSays(s, s.calls[actions[k].call], ttl, actions[k].supply, After(ttl, actions).log[j]);
  }

  /** Every token was written for the user whose email a call named that registers or asks again; it is the token that the
      generator handed out, and expires one lifetime later. */
  lemma TokensLastALifetime(ttl: int, actions: seq<Action>, j: nat) returns (k: nat)
    requires j < |After(ttl, actions).log| && After(ttl, actions).log[j].TokenWritten?
    ensures LoggedAt(ttl, actions, j, k)
    ensures var s, e := After(ttl, actions[..k]), After(ttl, actions).log[j];
            var request, supply := s.calls[actions[k].call].request, actions[k].supply;
            && (request.Register? || request.Resend?) && !Blank(request.email)
            && e.user in s.users && HasEmail(s.users[e.user], request.email)
            && e.token == supply.token && e.expiresAt == supply.now + ttl
  {
    hide After, Execute, AtWork, HasEmail;
    k := LoggedEventSays(ttl, actions, j);
    var s := After(ttl, actions[..k]);
    EventSays(s, s.calls[actions[k].call], ttl, actions[k].supply, After(ttl, actions).log[j]);
  }

  /** Every redemption was made by the step of a call that presented the token, perhaps with white space around it, while
      the user's row held it and it had not expired. */
  lemma RedemptionsPresentedIt(ttl: int, actions: seq<Action>, j: nat) returns (k: nat)
    requires j < |After(ttl, actions).log| && After(ttl, actions).log[j].TokenRedeemed?
    ensures LoggedAt(ttl, actions, j, k)
    ensures var s, e := After(ttl, actions[..k]), After(ttl, actions).log[j];
            var request, supply := s.calls[actions[k].call].request, actions[k].supply;
            && request.Verify? && Trim(request.text) == e.token && e.at == supply.now
            && e.user in s.users && s.users[e.user].token == Some(e.token) && supply.now < s.users[e.user].expiresAt
  {
    hide After, Execute, AtWork, HasEmail, Trim;
    k := LoggedEventSays(ttl, actions, j);
    var s := After(ttl, actions[..k]);
    EventSays(s, s.calls[actions[k].call], ttl, actions[k].supply, After(ttl, actions).log[j]);
  }

  // ---------------------------------------------------------------------------------------------
  // When a statement lets a call get on
  // ---------------------------------------------------------------------------------------------

  /** In every reachable state, a login gets through as `u` exactly when `u` has the email, the password matches, and `u`
      is verified; it changes no row. */
  lemma LogsInIff(ttl: int, actions: seq<Action>, i: nat, supply: Supply, u: Uuid)
    requires i < |After(ttl, actions).calls| && After(ttl, actions).calls[i].pc == CheckRow
    ensures var s, s' := After(ttl, actions), Next(After(ttl, actions), ttl, Step(i, supply));
            && s'.users == s.users && s.calls[i].request.LogIn?
            && (s'.calls[i].pc == LoggedIn(u) <==>
                  u in s.users && HasEmail(s.users[u], s.calls[i].request.email)
                  && supply.passwordMatches && s.users[u].verified)
  {
    hide After, Trim, NormalEmail, HasEmail, TableMatches, LogIsOfUsers, TokensAreUnique, EventsAreJustified;
    EveryRunKeepsInv(ttl, actions);
    AllAreAtWork(ttl, actions, i);
    var s := After(ttl, actions);
    forall user: User, email ensures HasEmail(user, email) <==> user.email == NormalEmail(email) {
      HasEmailIff(user, email);
    }
  }

  /** A registration inserts its user exactly when the id is new and nobody has the email; a user begins unverified. */
  lemma RegistersIff(ttl: int, actions: seq<Action>, i: nat, supply: Supply)
    requires i < |After(ttl, actions).calls| && After(ttl, actions).calls[i].pc == InsertRow
    ensures var s, s' := After(ttl, actions), Next(After(ttl, actions), ttl, Step(i, supply));
            var request := s.calls[i].request;
            && request.Register? && s'.log == s.log
            && if supply.id !in s.users && forall u :: u in s.users ==> !HasEmail(s.users[u], request.email)
               then
                 && s'.calls[i].pc == WriteRow(supply.id) && supply.id in s'.users
                 && s'.users == s.users[supply.id := s'.users[supply.id]]
                 && HasEmail(s'.users[supply.id], request.email)
                 && !s'.users[supply.id].verified && s'.users[supply.id].token.None?
               else s'.calls[i].pc == Failed(EmailTaken) && s'.users == s.users
  {
    hide After, Trim, NormalEmail, HasEmail;
    AllAreAtWork(ttl, actions, i);
    forall user: User, email ensures HasEmail(user, email) <==> user.email == NormalEmail(email) {
      HasEmailIff(user, email);
    }
  }

  /** A call that asks again gets a new token for `u` exactly when `u` has the email and is not verified. */
  lemma ResendsIff(ttl: int, actions: seq<Action>, i: nat, supply: Supply, u: Uuid)
    requires i < |After(ttl, actions).calls| && After(ttl, actions).calls[i].pc == SelectRow
    ensures var s, s' := After(ttl, actions), Next(After(ttl, actions), ttl, Step(i, supply));
            && s'.users == s.users && s'.log == s.log && s.calls[i].request.Resend?
            && (s'.calls[i].pc == WriteRow(u) <==>
                  u in s.users && HasEmail(s.users[u], s.calls[i].request.email) && !s.users[u].verified)
  {
    hide After, Trim, NormalEmail, HasEmail, TableMatches, LogIsOfUsers, TokensAreUnique, EventsAreJustified;
    EveryRunKeepsInv(ttl, actions);
    AllAreAtWork(ttl, actions, i);
    var s := After(ttl, actions);
    forall user: User, email ensures HasEmail(user, email) <==> user.email == NormalEmail(email) {
      HasEmailIff(user, email);
    }
  }

  /** The token is written with its expiry, and nothing else changes. */
  lemma WritesToken(ttl: int, actions: seq<Action>, i: nat, supply: Supply, u: Uuid)
    requires i < |After(ttl, actions).calls| && After(ttl, actions).calls[i].pc == WriteRow(u)
    requires Fresh(After(ttl, actions).log, supply.token)
    ensures var s, s' := After(ttl, actions), Next(After(ttl, actions), ttl, Step(i, supply));
            && u in s.users
            && s'.users == s.users[u := s.users[u].(token := Some(supply.token), expiresAt := supply.now + ttl)]
            && s'.calls[i].pc == if s.calls[i].request.Register? then Registered(u) else Resent(u)
  {
    hide After, HasEmail;
    AllAreAtWork(ttl, actions, i);
  }
}

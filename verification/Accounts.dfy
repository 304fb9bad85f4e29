/** The account service as the program runs it: one statement after the other, on a mutable users table.

    Each method ends where the protocol of its request ends when no other call interferes (`Alone`). */
module Accounts {
  import opened Wrappers
  import opened Text
  import opened Uuids
  import opened EmailVerification

  /** No request has more than two statements, and an ended call stays as it is. */
  ghost function Alone(s: State, request: Request, ttl: int, supply: Supply): (State, Pc) {
    var (users, call, log) := Execute(s, Start(request), ttl, supply);
    var (users', call', log') := Execute(s.(users := users, log := log), call, ttl, supply);
    (s.(users := users', log := log'), call'.pc)
  }

  lemma AloneKeepsInv(s: State, request: Request, ttl: int, supply: Supply)
    requires Inv(s)
    ensures Inv(Alone(s, request, ttl, supply).0)
  {
    hide Inv, Execute;
    WithCalls(s, s.calls + [Start(request)]);
    var begun := s.(calls := s.calls + [Start(request)]);
    var once := Next(begun, ttl, Step(|s.calls|, supply));
    NextKeepsInv(begun, ttl, Step(|s.calls|, supply));
    var twice := Next(once, ttl, Step(|s.calls|, supply));
    NextKeepsInv(once, ttl, Step(|s.calls|, supply));
    ExecuteIgnoresCalls(s, begun, Start(request), ttl, supply);
    var (users, call, log) := Execute(s, Start(request), ttl, supply);
    ExecuteIgnoresCalls(s.(users := users, log := log), once, call, ttl, supply);
    WithCalls(twice, s.calls);
  }

  lemma WithCalls(s: State, calls: seq<Call>)
    ensures Inv(s) <==> Inv(s.(calls := calls))
  {
  }

  lemma ExecuteIgnoresCalls(s: State, s': State, call: Call, ttl: int, supply: Supply)
    requires s.users == s'.users && s.log == s'.log
    ensures Execute(s, call, ttl, supply) == Execute(s', call, ttl, supply)
  {
  }

  lemma ExecuteKeepsRequest(s: State, call: Call, ttl: int, supply: Supply)
    ensures Execute(s, call, ttl, supply).1.request == call.request
  {
  }

  lemma RunSnoc(ttl: int, actions: seq<Action>, action: Action)
    ensures After(ttl, actions + [action]) == Next(After(ttl, actions), ttl, action)
  {
  }

  /** Running alone is one of the runs of the protocol: whatever happened before, the new call takes its statements one
      after the other and nobody else takes any. */
  lemma AloneIsARun(ttl: int, actions: seq<Action>, request: Request, supply: Supply)
    ensures var s := After(ttl, actions);
            var (after, pc) := Alone(s, request, ttl, supply);
            var step := Step(|s.calls|, supply);
            After(ttl, actions + [Begin(request)] + [step] + [step])
            == after.(calls := s.calls + [Call(request, pc)])
  {
    hide Execute, After;
    var s := After(ttl, actions);
    var i := |s.calls|;
    var step := Step(i, supply);
    RunSnoc(ttl, actions, Begin(request));
    RunSnoc(ttl, actions + [Begin(request)], step);
    RunSnoc(ttl, actions + [Begin(request)] + [step], step);
    var begun := s.(calls := s.calls + [Start(request)]);
    ExecuteIgnoresCalls(s, begun, Start(request), ttl, supply);
    ExecuteKeepsRequest(s, Start(request), ttl, supply);
    var (users, call, log) := Execute(s, Start(request), ttl, supply);
    var once := State(users, s.calls + [call], log);
    assert Next(begun, ttl, step) == once;
    ExecuteIgnoresCalls(s.(users := users, log := log), once, call, ttl, supply);
    ExecuteKeepsRequest(once, call, ttl, supply);
    var (users', call', log') := Execute(once, call, ttl, supply);
    assert Next(once, ttl, step) == State(users', s.calls + [call'], log');
  }

  /** An email finds one user at most. */
  lemma SelectsOnly(s: State, u: Uuid)
    requires Inv(s) && u in s.users
    ensures SelectByEmail(s.users, s.users[u].email) == Some(u)
    ensures forall v :: v in s.users && s.users[v].email == s.users[u].email ==> v == u
  {
    hide TableMatches, TokensAreUnique, EventsAreJustified;
  }

  /** What a method returns for the end of its call. */
  predicate Returns(r: Result<Uuid, UserError>, pc: Pc) {
    match pc
    case Registered(u) => r == Success(u)
    case Resent(u) => r == Success(u)
    case Verified(u) => r == Success(u)
    case LoggedIn(u) => r == Success(u)
    case Failed(e) => r == Failure(e)
    case _ => false
  }

  class Accounts {
    const ttl: int
    var users: Users
    ghost var log: seq<Event>

    ghost function History(): State
      reads this
    {
      State(users, [], log)
    }

    ghost predicate Valid()
      reads this
    {
      Inv(History())
    }

    /** A lifetime of zero means a day. */
    constructor (ttl: int)
      ensures Valid() && History() == NOTHING
      ensures this.ttl == if ttl == 0 then 24 * 60 * 60 else ttl
    {
      this.ttl := if ttl == 0 then 24 * 60 * 60 else ttl;
      users, log := map[], [];
    }

    method FindByEmail(email: string) returns (found: Option<Uuid>)
      ensures found.Some? ==> found.value in users && users[found.value].email == email
      ensures found.None? ==> SelectByEmail(users, email) == None
    {
      if u :| u in users && users[u].email == email {
        return Some(u);
      }
      return None;
    }

    method SetVerificationToken(user: Uuid, token: string, expiresAt: int) returns (error: Option<UserError>)
      modifies this
      ensures match WriteToken(old(users), user, token, expiresAt)
              case Failure(e) => error == Some(e) && History() == old(History())
              case Success(after) =>
                error == None && users == after && log == old(log) + [TokenWritten(user, token, expiresAt)]
      ensures error.None? <==> user in old(users)
      ensures users == if error.Some? then old(users)
                       else old(users)[user := old(users)[user].(token := Some(token), expiresAt := expiresAt)]
    {
      if user !in users {
        return Some(NotFound);
      }
      users := users[user := users[user].(token := Some(token), expiresAt := expiresAt)];
      log := log + [TokenWritten(user, token, expiresAt)];
      return None;
    }

    method RegisterUser(email: string, password: string, supply: Supply) returns (r: Result<Uuid, UserError>)
      requires Valid() && Fresh(log, supply.token)
      modifies this
      ensures Valid()
      ensures var (after, end) := Alone(old(History()), Register(email, password), ttl, supply);
              History() == after && Returns(r, end)
      ensures r.Success? <==>
                && !Blank(email) && password != "" && supply.id !in old(users)
                && forall u :: u in old(users) ==> !HasEmail(old(users)[u], email)
      ensures if r.Failure? then users == old(users) && log == old(log)
              else
                && r.value == supply.id && r.value in users && HasEmail(users[r.value], email)
                && users == old(users)[r.value := users[r.value]]
                && !users[r.value].verified && users[r.value].token == Some(supply.token)
                && users[r.value].expiresAt == supply.now + ttl
                && log == old(log) + [TokenWritten(r.value, supply.token, supply.now + ttl)]
    {
      hide Inv, NormalEmail, Blank, Fresh, HasEmail;
      forall user ensures HasEmail(user, email) <==> user.email == NormalEmail(email) {
        HasEmailIff(user, email);
      }
      AloneKeepsInv(History(), Register(email, password), ttl, supply);
      if Blank(email) || password == "" {
        return Failure(InvalidInput);
      }
      var stored := NormalEmail(email);
      if supply.id in users || exists u :: u in users && users[u].email == stored {
        return Failure(EmailTaken);
      }
      users := users[supply.id := User(stored, false, None, 0)];
      var error := SetVerificationToken(supply.id, supply.token, supply.now + ttl);
      return Success(supply.id);
    }

    method ResendVerification(email: string, supply: Supply) returns (r: Result<Uuid, UserError>)
      requires Valid() && Fresh(log, supply.token)
      modifies this
      ensures Valid()
      ensures var (after, end) := Alone(old(History()), Resend(email), ttl, supply);
              History() == after && Returns(r, end)
      ensures forall u :: r == Success(u) <==>
                !Blank(email) && u in old(users) && HasEmail(old(users)[u], email) && !old(users)[u].verified
      ensures if r.Failure? then users == old(users) && log == old(log)
              else
                && users == old(users)[r.value :=
                     old(users)[r.value].(token := Some(supply.token), expiresAt := supply.now + ttl)]
                && log == old(log) + [TokenWritten(r.value, supply.token, supply.now + ttl)]
    {
      hide Inv, NormalEmail, Blank, Fresh, HasEmail;
      forall user ensures HasEmail(user, email) <==> user.email == NormalEmail(email) {
        HasEmailIff(user, email);
      }
      AloneKeepsInv(History(), Resend(email), ttl, supply);
      if Blank(email) {
        return Failure(InvalidInput);
      }
      var found := FindByEmail(NormalEmail(email));
      if found.None? {
        return Failure(NotFound);
      }
      SelectsOnly(History(), found.value);
      if users[found.value].verified {
        return Failure(AlreadyVerified);
      }
      var error := SetVerificationToken(found.value, supply.token, supply.now + ttl);
      return Success(found.value);
    }

    method VerifyEmail(text: string, supply: Supply) returns (r: Result<Uuid, UserError>)
      requires Valid()
      modifies this
      ensures Valid()
      ensures var (after, end) := Alone(old(History()), Verify(text), ttl, supply);
              History() == after && Returns(r, end)
      ensures forall u :: r == Success(u) <==>
                && !Blank(text) && u in old(users) && old(users)[u].token == Some(Trim(text))
                && supply.now < old(users)[u].expiresAt
      ensures if r.Failure? then users == old(users) && log == old(log)
              else
                && users == old(users)[r.value :=
                     old(users)[r.value].(verified := true, token := None, expiresAt := 0)]
                && log == old(log) + [TokenRedeemed(r.value, Trim(text), supply.now)]
    {
      hide Inv, NormalEmail, Blank, Trim;
      AloneKeepsInv(History(), Verify(text), ttl, supply);
      if Blank(text) {
        return Failure(InvalidInput);
      }
      var token := Trim(text);
      var redeemed := map u | u in users && Redeemable(users[u], token, supply.now) ::
        users[u].(verified := true, token := None, expiresAt := 0);
      assert users + redeemed == RedeemToken(users, token, supply.now);
      ghost var found := Redeemer(users, token, supply.now);
      assert found.Some? ==> found.value in redeemed;
      if u :| u in redeemed {
        forall v | v in users && Redeemable(users[v], token, supply.now) ensures v == u {
          OneHolder(History(), u, v, token);
        }
        log := log + [TokenRedeemed(u, token, supply.now)];
        users := users + redeemed;
        return Success(u);
      }
      return Failure(NotFound);
    }

    method LoginUser(email: string, password: string, supply: Supply) returns (r: Result<Uuid, UserError>)
      requires Valid()
      modifies this
      ensures Valid() && users == old(users)
      ensures var (after, end) := Alone(old(History()), LogIn(email, password), ttl, supply);
              History() == after && Returns(r, end)
      ensures forall u :: r == Success(u) <==>
                && !Blank(email) && password != "" && u in users && HasEmail(users[u], email)
                && supply.passwordMatches && users[u].verified
      ensures log == old(log) + if r.Success? then [LoginPassed(r.value)] else []
      ensures r.Failure? ==>
                r.error == if Blank(email) || password == "" then InvalidInput
                           else if forall u :: u in users ==> !HasEmail(users[u], email) then NotFound
                           else if !supply.passwordMatches then InvalidCredentials
                           else NotVerified
    {
      hide Inv, NormalEmail, Blank, HasEmail;
      forall user ensures HasEmail(user, email) <==> user.email == NormalEmail(email) {
        HasEmailIff(user, email);
      }
      AloneKeepsInv(History(), LogIn(email, password), ttl, supply);
      if Blank(email) || password == "" {
        return Failure(InvalidInput);
      }
      var found := FindByEmail(NormalEmail(email));
      if found.None? {
        return Failure(NotFound);
      }
      SelectsOnly(History(), found.value);
      if !supply.passwordMatches {
        return Failure(InvalidCredentials);
      }
      if !users[found.value].verified {
        return Failure(NotVerified);
      }
      log := log + [LoginPassed(found.value)];
      return Success(found.value);
    }
  }
}

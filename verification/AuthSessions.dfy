/** Rotating refresh sessions: apps/api/app/services/auth_service.py and
    apps/api/app/repositories/session_repo.py. Only hashes of tokens are stored; a token stands for its hash. */
module AuthSessions {
  import opened Wrappers

  type UserId = nat
  type Token = nat

  const DAY: int := 86_400_000_000

  datatype Error = InvalidCredentials | InvalidToken | DuplicateToken

  // revokedAt is never cleared once set.
  datatype Session = Session(user: UserId, expires: int, revokedAt: Option<int>)

  datatype Event = LoginFailed(user: UserId) | LoginSucceeded(user: UserId) | LoggedOut(user: UserId, token: Token)

  datatype Db = Db(active: map<UserId, bool>, sessions: map<Token, Session>, audit: seq<Event>)

  const EMPTY: Db := Db(map[], map[], [])

  datatype Tokens = Tokens(subject: UserId, refresh: Token)

  predicate IsActive(s: Session, now: int) {
    s.revokedAt.None? && s.expires > now
  }

  function Issue(db: Db, days: int, user: UserId, token: Token, now: int): Result<Db, Error> {
    if token in db.sessions then Failure(DuplicateToken)
    else Success(db.(sessions := db.sessions[token := Session(user, now + days * DAY, None)],
                     audit := db.audit + [LoginSucceeded(user)]))
  }

  // A failed password leaves an audit row behind; a deactivated account does not.
  function AfterSignIn(db: Db, days: int, user: UserId, passwordOk: bool, token: Token, now: int)
    : (Db, Result<Tokens, Error>)
  {
    if user !in db.active || !passwordOk then
      (db.(audit := db.audit + [LoginFailed(user)]), Failure(InvalidCredentials))
    else if !db.active[user] then (db, Failure(InvalidCredentials))
    else
      match Issue(db, days, user, token, now)
      case Failure(e) => (db, Failure(e))
      case Success(d) => (d, Success(Tokens(user, token)))
  }

  function Revoked(db: Db, token: Token, now: int): Db
    requires token in db.sessions
  {
    db.(sessions := db.sessions[token := db.sessions[token].(revokedAt := Some(now))])
  }

  function AfterRefresh(db: Db, days: int, token: Token, next: Token, now: int): (Db, Result<Tokens, Error>) {
    if token !in db.sessions || !IsActive(db.sessions[token], now) then (db, Failure(InvalidToken))
    else
      var user := db.sessions[token].user;
      if user !in db.active || !db.active[user] then (db, Failure(InvalidToken))
      else
        match Issue(Revoked(db, token, now), days, user, next, now)
        case Failure(e) => (db, Failure(e))
        case Success(d) => (d, Success(Tokens(user, next)))
  }

  function AfterLogout(db: Db, token: Token, now: int): Db {
    if token !in db.sessions then db
    else Revoked(db, token, now).(audit := db.audit + [LoggedOut(db.sessions[token].user, token)])
  }

  class AuthService {
    const refreshTokenDays: int
    var rows: Db
    var committed: Db

    constructor (refreshTokenDays: int)
      ensures this.refreshTokenDays == refreshTokenDays && rows == committed == EMPTY
    {
      this.refreshTokenDays, rows, committed := refreshTokenDays, EMPTY, EMPTY;
    }

    method Revoke(token: Token, now: int)
      requires token in rows.sessions
      modifies this`rows
      ensures rows == Revoked(old(rows), token, now)
    {
      rows := rows.(sessions := rows.sessions[token := rows.sessions[token].(revokedAt := Some(now))]);
    }

    // A token that is taken violates the unique index; the session rolls back to the last commit.
    method IssueTokenPair(user: UserId, token: Token, now: int) returns (r: Result<Tokens, Error>)
      modifies this
      ensures match Issue(old(rows), refreshTokenDays, user, token, now)
              case Success(d) => r == Success(Tokens(user, token)) && rows == committed == d
              case Failure(e) => r == Failure(e) && rows == committed == old(committed)
    {
      if token in rows.sessions {
        rows := committed;
        return Failure(DuplicateToken);
      }
      rows := rows.(sessions := rows.sessions[token := Session(user, now + refreshTokenDays * DAY, None)]);
      rows := rows.(audit := rows.audit + [LoginSucceeded(user)]);
      committed := rows;
      r := Success(Tokens(user, token));
    }

    method SignIn(user: UserId, passwordOk: bool, token: Token, now: int) returns (r: Result<Tokens, Error>)
      requires rows == committed
      modifies this
      ensures rows == committed && (rows, r) == AfterSignIn(old(rows), refreshTokenDays, user, passwordOk, token, now)
    {
      if user !in rows.active || !passwordOk {
        rows := rows.(audit := rows.audit + [LoginFailed(user)]);
        committed := rows;
        return Failure(InvalidCredentials);
      }
      if !rows.active[user] {
        return Failure(InvalidCredentials);
      }
      r := IssueTokenPair(user, token, now);
    }

    method Refresh(token: Token, next: Token, now: int) returns (r: Result<Tokens, Error>)
      requires rows == committed
      modifies this
      ensures rows == committed && (rows, r) == AfterRefresh(old(rows), refreshTokenDays, token, next, now)
    {
      if token !in rows.sessions || !IsActive(rows.sessions[token], now) {
        return Failure(InvalidToken);
      }
      var user := rows.sessions[token].user;
      if user !in rows.active || !rows.active[user] {
        return Failure(InvalidToken);
      }
      Revoke(token, now);
      r := IssueTokenPair(user, next, now);
    }

    method Logout(token: Token, now: int)
      requires rows == committed
      modifies this
      ensures rows == committed == AfterLogout(old(rows), token, now)
    {
      if token !in rows.sessions {
        return;
      }
      Revoke(token, now);
      rows := rows.(audit := rows.audit + [LoggedOut(rows.sessions[token].user, token)]);
      committed := rows;
    }

    method Perform(s: Step)
      requires rows == committed
      modifies this
      ensures rows == committed == Apply(refreshTokenDays, World(old(rows), 0, map[]), s).db
    {
      match s {
        case SignIn(user, passwordOk, token, now) =>
          var _ := SignIn(user, passwordOk, token, now);
        case Refresh(token, next, now) =>
          var _ := Refresh(token, next, now);
        case Logout(token, now) =>
          Logout(token, now);
        case SetUser(user, active) =>
          rows := rows.(active := rows.active[user := active]);
          committed := rows;
      }
    }

    // The runs below are what the service does, call after call.
    method PerformAll(steps: seq<Step>)
      requires rows == committed == START.db
      modifies this
      ensures rows == committed == Run(refreshTokenDays, START, steps).db
    {
      ghost var w := START;
      for i := 0 to |steps|
        invariant rows == committed == w.db
        invariant Run(refreshTokenDays, START, steps) == Run(refreshTokenDays, w, steps[i..])
      {
        Perform(steps[i]);
        assert steps[i..][0] == steps[i] && steps[i..][1..] == steps[i + 1..];
        RowsOnly(refreshTokenDays, w, steps[i]);
        w := Apply(refreshTokenDays, w, steps[i]);
      }
    }
  }

  // What a step does to the rows does not depend on the lineages.
  lemma RowsOnly(days: int, w: World, s: Step)
    ensures Apply(days, w, s).db == Apply(days, World(w.db, 0, map[]), s).db
  {
  }

  // ---- runs --------------------------------------------------------------------------------------

  datatype Step = SignIn(user: UserId, passwordOk: bool, token: Token, now: int)
                | Refresh(token: Token, next: Token, now: int)
                | Logout(token: Token, now: int)
                | SetUser(user: UserId, active: bool)

  datatype Login = Login(user: UserId, number: nat)

  // The rows, how many logins there have been, and for each token the login it descends from.
  datatype World = World(db: Db, logins: nat, root: map<Token, Login>)

  function Apply(days: int, w: World, s: Step): World {
    match s
    case SignIn(user, passwordOk, token, now) =>
      var (d, r) := AfterSignIn(w.db, days, user, passwordOk, token, now);
      if r.Success? then World(d, w.logins + 1, w.root[token := Login(user, w.logins)]) else w.(db := d)
    case Refresh(token, next, now) =>
      var (d, r) := AfterRefresh(w.db, days, token, next, now);
      w.(db := d, root := if r.Success? && token in w.root then w.root[next := w.root[token]] else w.root)
    case Logout(token, now) => w.(db := AfterLogout(w.db, token, now))
    case SetUser(user, active) => w.(db := w.db.(active := w.db.active[user := active]))
  }

  function Run(days: int, w: World, steps: seq<Step>): World
    decreases |steps|
  {
    if steps == [] then w else Run(days, Apply(days, w, steps[0]), steps[1..])
  }

  predicate Accepts(days: int, w: World, s: Step, token: Token) {
    s.Refresh? && s.token == token && AfterRefresh(w.db, days, token, s.next, s.now).1.Success?
  }

  // How often refresh accepts a token in the course of a run.
  function Acceptances(days: int, w: World, steps: seq<Step>, token: Token): nat
    decreases |steps|
  {
    if steps == [] then 0
    else
      (if Accepts(days, w, steps[0], token) then 1 else 0)
      + Acceptances(days, Apply(days, w, steps[0]), steps[1..], token)
  }

  const START: World := World(EMPTY, 0, map[])

  predicate Spent(w: World, token: Token) {
    token in w.db.sessions && w.db.sessions[token].revokedAt.Some?
  }

  predicate Live(w: World, token: Token) {
    token in w.db.sessions && w.db.sessions[token].revokedAt.None?
  }

  // Each session descends from a login of the same user.
  predicate Rooted(w: World) {
    && w.root.Keys == w.db.sessions.Keys
    && (forall t :: t in w.root ==> w.root[t].number < w.logins && w.root[t].user == w.db.sessions[t].user)
  }

  // No login has two unrevoked descendants.
  predicate SingleFile(w: World) {
    forall t, u :: t in w.root && u in w.root && Live(w, t) && Live(w, u) && w.root[t] == w.root[u] ==> t == u
  }

  lemma StepKeepsSpent(days: int, w: World, s: Step, token: Token)
    requires Spent(w, token)
    ensures Spent(Apply(days, w, s), token) && !Accepts(days, w, s, token)
  {
  }

  lemma {:induction false} SpentIsNeverAccepted(days: int, w: World, steps: seq<Step>, token: Token)
    requires Spent(w, token)
    ensures Acceptances(days, w, steps, token) == 0 && Spent(Run(days, w, steps), token)
    decreases |steps|
  {
    if steps != [] {
      StepKeepsSpent(days, w, steps[0], token);
      SpentIsNeverAccepted(days, Apply(days, w, steps[0]), steps[1..], token);
    }
  }

  /** From any rows whatever, refresh accepts a token at most once. */
  lemma {:induction false} AcceptedAtMostOnce(days: int, w: World, steps: seq<Step>, token: Token)
    ensures Acceptances(days, w, steps, token) <= 1
    decreases |steps|
  {
    if steps != [] {
      var v := Apply(days, w, steps[0]);
      if Accepts(days, w, steps[0], token) {
        SpentIsNeverAccepted(days, v, steps[1..], token);
      } else {
        AcceptedAtMostOnce(days, v, steps[1..], token);
      }
    }
  }

  lemma SignInKeepsRooted(days: int, w: World, s: Step)
    requires Rooted(w) && s.SignIn?
    ensures Rooted(Apply(days, w, s))
  {
  }

  lemma RefreshKeepsRooted(days: int, w: World, s: Step)
    requires Rooted(w) && s.Refresh?
    ensures Rooted(Apply(days, w, s))
  {
  }

  lemma OtherKeepsRooted(days: int, w: World, s: Step)
    requires Rooted(w) && !s.SignIn? && !s.Refresh?
    ensures Rooted(Apply(days, w, s))
  {
  }

  lemma StepKeepsRooted(days: int, w: World, s: Step)
    requires Rooted(w)
    ensures Rooted(Apply(days, w, s))
  {
    hide *;
    match s
    case SignIn(_, _, _, _) => SignInKeepsRooted(days, w, s);
    case Refresh(_, _, _) => RefreshKeepsRooted(days, w, s);
    case _ => OtherKeepsRooted(days, w, s);
  }

  lemma StepKeepsSingleFile(days: int, w: World, s: Step)
    requires Rooted(w) && SingleFile(w)
    ensures SingleFile(Apply(days, w, s))
  {
  }

  lemma {:induction false} RunKeepsSingleFile(days: int, w: World, steps: seq<Step>)
    requires Rooted(w) && SingleFile(w)
    ensures Rooted(Run(days, w, steps)) && SingleFile(Run(days, w, steps))
    decreases |steps|
  {
    if steps != [] {
      StepKeepsRooted(days, w, steps[0]);
      StepKeepsSingleFile(days, w, steps[0]);
      RunKeepsSingleFile(days, Apply(days, w, steps[0]), steps[1..]);
    }
  }

  lemma {:induction false} RunConcat(days: int, w: World, a: seq<Step>, b: seq<Step>)
    ensures Run(days, w, a + b) == Run(days, Run(days, w, a), b)
    decreases |a|
  {
    if a == [] {
      assert a + b == b;
    } else {
      assert (a + b)[1..] == a[1..] + b;
      RunConcat(days, Apply(days, w, a[0]), a[1..], b);
    }
  }

  /** A session once revoked is inactive at every instant of every continuation of the run. */
  lemma RevokedForGood(days: int, before: seq<Step>, later: seq<Step>, token: Token, now: int)
    requires Spent(Run(days, START, before), token)
    ensures var w := Run(days, START, before + later); token in w.db.sessions && !IsActive(w.db.sessions[token], now)
  {
    RunConcat(days, START, before, later);
    SpentIsNeverAccepted(days, Run(days, START, before), later, token);
  }

  /** At any instant, at most one session that descends from a login is active, and every session of
      that lineage is the login's user's. */
  lemma OneActivePerLogin(days: int, steps: seq<Step>, t: Token, u: Token, now: int)
    requires var w := Run(days, START, steps);
             && t in w.db.sessions && IsActive(w.db.sessions[t], now)
             && u in w.db.sessions && IsActive(w.db.sessions[u], now)
    ensures var w := Run(days, START, steps);
            && t in w.root && u in w.root
            && (w.root[t] == w.root[u] ==> t == u)
            && w.root[t].user == w.db.sessions[t].user
  {
    hide Run;
    assert Rooted(START) && SingleFile(START);
    RunKeepsSingleFile(days, START, steps);
    var w := Run(days, START, steps);
    assert Live(w, t) && Live(w, u);
  }

  /** An accepted refresh hands the lineage over: the new token is live in place of the old one, descends
      from the same login, and no other session changes. */
  lemma RefreshHandsOver(days: int, steps: seq<Step>, token: Token, next: Token, now: int)
    requires Accepts(days, Run(days, START, steps), Refresh(token, next, now), token)
    ensures var w := Run(days, START, steps);
            var v := Apply(days, w, Refresh(token, next, now));
            && !Live(v, token) && Live(v, next) && v.db.sessions[next].expires == now + days * DAY
            && token in w.db.sessions && v.db.sessions[next].user == w.db.sessions[token].user
            && AfterRefresh(w.db, days, token, next, now).1 == Success(Tokens(w.db.sessions[token].user, next))
            && token in w.root && next in v.root && v.root[next] == w.root[token] && v.logins == w.logins
            && forall t :: t in w.db.sessions && t != token ==>
                 && t in v.db.sessions && v.db.sessions[t] == w.db.sessions[t]
                 && t in v.root && t in w.root && v.root[t] == w.root[t]
  {
    hide Run, SingleFile;
    assert Rooted(START) && START.root == map[];
    StartIsSingleFile();
    RunKeepsSingleFile(days, START, steps);
  }

  lemma StartIsSingleFile()
    ensures SingleFile(START)
  {
  }

  // No token of this login's lineage can ever be refreshed.
  predicate Dead(w: World, login: Login) {
    forall t :: t in w.root && w.root[t] == login ==> !Live(w, t)
  }

  lemma StepKeepsDead(days: int, w: World, s: Step, login: Login)
    requires Rooted(w) && login.number < w.logins && Dead(w, login)
    ensures login.number < Apply(days, w, s).logins && Dead(Apply(days, w, s), login)
  {
  }

  lemma {:induction false} DeadForGood(days: int, w: World, steps: seq<Step>, login: Login)
    requires Rooted(w) && login.number < w.logins && Dead(w, login)
    ensures Dead(Run(days, w, steps), login)
    decreases |steps|
  {
    if steps != [] {
      StepKeepsRooted(days, w, steps[0]);
      StepKeepsDead(days, w, steps[0], login);
      DeadForGood(days, Apply(days, w, steps[0]), steps[1..], login);
    }
  }

  lemma LogoutStepEndsLineageIff(days: int, w: World, token: Token, now: int)
    requires Rooted(w) && SingleFile(w) && token in w.root
    ensures Dead(Apply(days, w, Logout(token, now)), w.root[token]) <==> Live(w, token) || Dead(w, w.root[token])
  {
    var v := Apply(days, w, Logout(token, now));
    assert v.root == w.root;
    assert forall t :: t in w.root ==> (Live(v, t) <==> Live(w, t) && t != token);
  }

  /** Logging out ends the whole lineage, for every continuation, exactly when the token given is the
      lineage's live one or there was none; with an old token it leaves the lineage's live session alone. */
  lemma LogoutEndsLineageIff(days: int, before: seq<Step>, token: Token, now: int, later: seq<Step>)
    requires token in Run(days, START, before).root
    ensures var w := Run(days, START, before);
            var v := Apply(days, w, Logout(token, now));
            && (Dead(v, w.root[token]) <==> Live(w, token) || Dead(w, w.root[token]))
            && (Dead(v, w.root[token]) ==> Dead(Run(days, v, later), w.root[token]))
  {
    hide Run, Dead;
    assert Rooted(START) && SingleFile(START);
    RunKeepsSingleFile(days, START, before);
    var w := Run(days, START, before);
    LogoutStepEndsLineageIff(days, w, token, now);
    var v := Apply(days, w, Logout(token, now));
    StepKeepsRooted(days, w, Logout(token, now));
    if Dead(v, w.root[token]) {
      DeadForGood(days, v, later, w.root[token]);
    }
  }

  // ---- sessions run out --------------------------------------------------------------------------

  // The step issues a token, if it is accepted: when, and for how long.
  predicate Issues(s: Step, token: Token) {
    (s.SignIn? && s.token == token) || (s.Refresh? && s.next == token)
  }

  // Token was issued by step k of the run, and its session runs out that many days later.
  predicate IssuedAt(days: int, steps: seq<Step>, k: nat, db: Db, token: Token) {
    && k < |steps| && Issues(steps[k], token)
    && token in db.sessions && db.sessions[token].expires == steps[k].now + days * DAY
  }

  lemma StepIssues(days: int, w: World, s: Step, token: Token)
    ensures var d := Apply(days, w, s).db;
            && (token in w.db.sessions ==>
                  token in d.sessions && d.sessions[token].expires == w.db.sessions[token].expires
                  && d.sessions[token].user == w.db.sessions[token].user)
            && (token in d.sessions && token !in w.db.sessions ==>
                  && Issues(s, token) && d.sessions[token].expires == s.now + days * DAY
                  && d.sessions[token].revokedAt == None)
            && (token in w.db.sessions && d.sessions[token].revokedAt != w.db.sessions[token].revokedAt ==>
                  Revokes(s, token) && d.sessions[token].revokedAt == Some(s.now))
  {
  }

  // The step revokes a token, if it is accepted.
  predicate Revokes(s: Step, token: Token) {
    (s.Refresh? || s.Logout?) && s.token == token
  }

  /** Every session that is revoked was revoked by a refresh or a logout with its token, and is dated then. */
  lemma {:induction false} EveryRevocationHadItsCall(days: int, steps: seq<Step>, token: Token) returns (k: nat)
    requires Spent(Run(days, START, steps), token)
    ensures k < |steps| && Revokes(steps[k], token)
    ensures Run(days, START, steps).db.sessions[token].revokedAt == Some(steps[k].now)
  {
    hide Apply;
    k := |steps| - 1;
    var front, last := steps[..k], steps[k];
    assert front + [last] == steps;
    RunThen(days, front, last);
    StepIssues(days, Run(days, START, front), last, token);
    hide Run;
    var v, w := Run(days, START, front), Run(days, START, steps);
    if token in v.db.sessions && v.db.sessions[token].revokedAt == w.db.sessions[token].revokedAt {
      k := EveryRevocationHadItsCall(days, front, token);
    }
  }

  lemma RunThen(days: int, steps: seq<Step>, s: Step)
    ensures Run(days, START, steps + [s]) == Apply(days, Run(days, START, steps), s)
  {
    RunConcat(days, START, steps, [s]);
  }

  lemma {:induction false} EveryTokenWasIssued(days: int, steps: seq<Step>, token: Token) returns (k: nat)
    requires token in Run(days, START, steps).db.sessions
    ensures IssuedAt(days, steps, k, Run(days, START, steps).db, token)
  {
    hide Apply;
    k := |steps| - 1;
    var front, last := steps[..k], steps[k];
    assert front + [last] == steps;
    RunThen(days, front, last);
    StepIssues(days, Run(days, START, front), last, token);
    hide Run;
    if token in Run(days, START, front).db.sessions {
      k := EveryTokenWasIssued(days, front, token);
    }
  }

  // Somebody who may use the service.
  predicate Welcome(db: Db, user: UserId) {
    user in db.active && db.active[user]
  }

  /** Refresh accepts a token exactly while it is neither revoked nor run out, for a user who is active, and if
      the new token is fresh; so never once the configured days have passed since it was issued. */
  lemma AcceptedBeforeExpiry(days: int, steps: seq<Step>, token: Token, next: Token, now: int) returns (k: nat)
    requires token in Run(days, START, steps).db.sessions
    ensures IssuedAt(days, steps, k, Run(days, START, steps).db, token)
    ensures var w := Run(days, START, steps);
            Accepts(days, w, Refresh(token, next, now), token)
            <==> Live(w, token) && now < steps[k].now + days * 86_400_000_000
                 && Welcome(w.db, w.db.sessions[token].user) && next !in w.db.sessions
  {
    k := EveryTokenWasIssued(days, steps, token);
    hide Run;
  }

  /** Signing in succeeds exactly for a known, active user with the right password, and opens a session of
      that user which runs out after the configured days; a wrong password or name leaves an audit row, a
      deactivated account nothing. */
  lemma SignsInIff(days: int, db: Db, user: UserId, passwordOk: bool, token: Token, now: int)
    requires token !in db.sessions
    ensures var (d, r) := AfterSignIn(db, days, user, passwordOk, token, now);
            && (r.Success? <==> Welcome(db, user) && passwordOk)
            && (r.Success? ==> r.value == Tokens(user, token) && d.active == db.active
                               && d.sessions == db.sessions[token := Session(user, now + days * DAY, None)]
                               && d.audit == db.audit + [LoginSucceeded(user)])
            && (r.Failure? ==> d.sessions == db.sessions && d.active == db.active)
            && (r.Failure? && passwordOk && user in db.active ==> d == db)
            && (r.Failure? && !(passwordOk && user in db.active) ==> d.audit == db.audit + [LoginFailed(user)])
  {
  }

  // ---- the audit trail counts the sessions -------------------------------------------------------

  function Logins(audit: seq<Event>, user: UserId): nat {
    if audit == [] then 0
    else Logins(audit[..|audit| - 1], user) + if audit[|audit| - 1] == LoginSucceeded(user) then 1 else 0
  }

  function SessionsOf(db: Db, user: UserId): set<Token> {
    set t | t in db.sessions && db.sessions[t].user == user
  }

  predicate Counted(db: Db, user: UserId) {
    |SessionsOf(db, user)| == Logins(db.audit, user)
  }

  lemma LoginsAdd(audit: seq<Event>, e: Event, user: UserId)
    ensures Logins(audit + [e], user) == Logins(audit, user) + if e == LoginSucceeded(user) then 1 else 0
  {
    assert (audit + [e])[..|audit|] == audit;
  }

  // A call that opens no session and logs no login.
  lemma NoLoginIsCounted(db: Db, d: Db, user: UserId, more: seq<Event>)
    requires Counted(db, user) && d.audit == db.audit + more && |more| <= 1
    requires forall e :: e in more ==> !e.LoginSucceeded?
    requires d.sessions.Keys == db.sessions.Keys
    requires forall t :: t in db.sessions ==> d.sessions[t].user == db.sessions[t].user
    ensures Counted(d, user)
  {
    assert SessionsOf(d, user) == SessionsOf(db, user);
    if more == [] {
      assert d.audit == db.audit;
    } else {
      assert more[0] in more && more == [more[0]];
      LoginsAdd(db.audit, more[0], user);
    }
  }

  lemma IssueIsCounted(db: Db, days: int, owner: UserId, token: Token, now: int, user: UserId)
    requires Counted(db, user) && Issue(db, days, owner, token, now).Success?
    ensures Counted(Issue(db, days, owner, token, now).value, user)
  {
    var d := Issue(db, days, owner, token, now).value;
    LoginsAdd(db.audit, LoginSucceeded(owner), user);
    hide Logins;
    if owner == user {
      assert SessionsOf(d, user) == SessionsOf(db, user) + {token} && token !in SessionsOf(db, user);
    } else {
      assert SessionsOf(d, user) == SessionsOf(db, user);
    }
  }

  lemma StepIsCounted(days: int, w: World, s: Step, user: UserId)
    requires Counted(w.db, user)
    ensures Counted(Apply(days, w, s).db, user)
  {
    var db, d := w.db, Apply(days, w, s).db;
    hide Counted;
    match s {
      case SignIn(owner, ok, token, now) =>
        if owner !in db.active || !ok {
          NoLoginIsCounted(db, d, user, [LoginFailed(owner)]);
        } else if !db.active[owner] || token in db.sessions {
          NoLoginIsCounted(db, d, user, []);
        } else {
          IssueIsCounted(db, days, owner, token, now, user);
        }
      case Refresh(token, next, now) =>
        if d == db {
          NoLoginIsCounted(db, d, user, []);
        } else {
          NoLoginIsCounted(db, Revoked(db, token, now), user, []);
          IssueIsCounted(Revoked(db, token, now), days, db.sessions[token].user, next, now, user);
        }
      case Logout(token, now) =>
        if token in db.sessions {
          NoLoginIsCounted(db, d, user, [LoggedOut(db.sessions[token].user, token)]);
        }
      case SetUser(_, _) =>
        NoLoginIsCounted(db, d, user, []);
    }
  }

  /** Over any run the audit trail holds one successful login for each session of a user, refreshed ones
      included, and no more. */
  lemma {:induction false} AuditCountsSessions(days: int, steps: seq<Step>, user: UserId)
    ensures |SessionsOf(Run(days, START, steps).db, user)| == Logins(Run(days, START, steps).db.audit, user)
  {
    if steps == [] {
      assert SessionsOf(EMPTY, user) == {};
    } else {
      var front, last := steps[..|steps| - 1], steps[|steps| - 1];
      assert front + [last] == steps;
      AuditCountsSessions(days, front, user);
      RunThen(days, front, last);
      hide Run, Apply, SessionsOf, Logins;
      StepIsCounted(days, Run(days, START, front), last, user);
    }
  }
}

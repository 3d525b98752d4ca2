/** Overlapping refreshes: apps/api/app/services/auth_service.py locks no row between the lookup of a
    session and its revocation, so refresh is two steps here, and n workers may each stand between them. */
module AuthRaces {
  import opened Finite
  import opened Wrappers
  import opened AuthSessions

  datatype Race = Looks(worker: nat, token: Token, now: int)
                | Rotates(worker: nat, next: Token, now: int)
                | Drops(worker: nat)
                | Serial(step: Step)

  datatype Crowd = Crowd(db: Db, pending: map<nat, Token>)

  // The lookup lets the worker go on exactly when refresh would accept the token at that moment.
  predicate Admits(db: Db, token: Token, now: int) {
    && token in db.sessions && IsActive(db.sessions[token], now)
    && db.sessions[token].user in db.active && db.active[db.sessions[token].user]
  }

  predicate CanHappen(n: nat, c: Crowd, r: Race) {
    match r
    case Looks(k, _, _) => k < n && k !in c.pending
    case Rotates(k, _, _) => k in c.pending && c.pending[k] in c.db.sessions
    case Drops(k) => k in c.pending
    case Serial(step) => !step.Refresh?
  }

  function Rotated(db: Db, days: int, token: Token, next: Token, now: int): Result<Db, Error>
    requires token in db.sessions
  {
    Issue(Revoked(db, token, now), days, db.sessions[token].user, next, now)
  }

  function Turn(days: int, n: nat, c: Crowd, r: Race): Crowd
    requires CanHappen(n, c, r)
  {
    match r
    case Looks(k, token, now) => if Admits(c.db, token, now) then c.(pending := c.pending[k := token]) else c
    case Rotates(k, next, now) =>
      (match Rotated(c.db, days, c.pending[k], next, now)
       case Success(d) => Crowd(d, c.pending - {k})
       case Failure(_) => Crowd(c.db, c.pending - {k}))
    case Drops(k) => c.(pending := c.pending - {k})
    case Serial(step) => c.(db := Apply(days, World(c.db, 0, map[]), step).db)
  }

  predicate Happens(days: int, n: nat, c: Crowd, rs: seq<Race>)
    decreases |rs|
  {
    rs == [] || (CanHappen(n, c, rs[0]) && Happens(days, n, Turn(days, n, c, rs[0]), rs[1..]))
  }

  function Outcomes(days: int, n: nat, c: Crowd, rs: seq<Race>): Crowd
    requires Happens(days, n, c, rs)
    decreases |rs|
  {
    if rs == [] then c else Outcomes(days, n, Turn(days, n, c, rs[0]), rs[1..])
  }

  predicate Rotation(days: int, c: Crowd, r: Race, token: Token) {
    && r.Rotates? && r.worker in c.pending && c.pending[r.worker] == token && token in c.db.sessions
    && Rotated(c.db, days, token, r.next, r.now).Success?
  }

  // How often a token is accepted: rotated into a new one.
  function Rotations(days: int, n: nat, c: Crowd, rs: seq<Race>, token: Token): nat
    requires Happens(days, n, c, rs)
    decreases |rs|
  {
    if rs == [] then 0
    else
      (if Rotation(days, c, rs[0], token) then 1 else 0)
      + Rotations(days, n, Turn(days, n, c, rs[0]), rs[1..], token)
  }

  function Holders(c: Crowd, token: Token): set<nat> {
    set k | k in c.pending && c.pending[k] == token
  }

  predicate Staffed(n: nat, c: Crowd) {
    forall k :: k in c.pending ==> k < n
  }

  // Once the token is revoked, only those who looked before can still rotate it.
  function Chances(n: nat, c: Crowd, token: Token): nat {
    if token in c.db.sessions && c.db.sessions[token].revokedAt.Some? then |Holders(c, token)| else n
  }

  lemma LookSpendsNothing(days: int, n: nat, c: Crowd, r: Race, token: Token)
    requires Staffed(n, c) && CanHappen(n, c, r) && r.Looks?
    ensures Staffed(n, Turn(days, n, c, r)) && Chances(n, Turn(days, n, c, r), token) <= Chances(n, c, token)
  {
    var d := Turn(days, n, c, r);
    if Admits(c.db, r.token, r.now) && r.token != token {
      assert Holders(d, token) == Holders(c, token);
    }
  }

  lemma RotationSpendsOne(days: int, n: nat, c: Crowd, r: Race, token: Token)
    requires Staffed(n, c) && CanHappen(n, c, r) && r.Rotates?
    ensures Staffed(n, Turn(days, n, c, r))
    ensures Chances(n, Turn(days, n, c, r), token) + (if Rotation(days, c, r, token) then 1 else 0)
            <= Chances(n, c, token)
  {
    var d := Turn(days, n, c, r);
    AtMostSoMany(n, Holders(c, token));
    assert Holders(d, token) == Holders(c, token) - {r.worker};
  }

  lemma DropSpendsNothing(days: int, n: nat, c: Crowd, r: Race, token: Token)
    requires Staffed(n, c) && CanHappen(n, c, r) && r.Drops?
    ensures Staffed(n, Turn(days, n, c, r)) && Chances(n, Turn(days, n, c, r), token) <= Chances(n, c, token)
  {
    assert Holders(Turn(days, n, c, r), token) == Holders(c, token) - {r.worker};
  }

  lemma SerialSpendsNothing(days: int, n: nat, c: Crowd, r: Race, token: Token)
    requires Staffed(n, c) && CanHappen(n, c, r) && r.Serial?
    ensures Staffed(n, Turn(days, n, c, r)) && Chances(n, Turn(days, n, c, r), token) <= Chances(n, c, token)
  {
    var w := World(c.db, 0, map[]);
    AtMostSoMany(n, Holders(c, token));
    assert Holders(Turn(days, n, c, r), token) == Holders(c, token);
    if Spent(w, token) {
      StepKeepsSpent(days, w, r.step, token);
    }
    hide Apply;
  }

  lemma TurnSpendsChance(days: int, n: nat, c: Crowd, r: Race, token: Token)
    requires Staffed(n, c) && CanHappen(n, c, r)
    ensures Staffed(n, Turn(days, n, c, r))
    ensures Chances(n, Turn(days, n, c, r), token) + (if Rotation(days, c, r, token) then 1 else 0)
            <= Chances(n, c, token)
  {
    hide Turn, Chances, CanHappen, Staffed;
    match r
    case Looks(_, _, _) => LookSpendsNothing(days, n, c, r, token);
    case Rotates(_, _, _) => RotationSpendsOne(days, n, c, r, token);
    case Drops(_) => DropSpendsNothing(days, n, c, r, token);
    case Serial(_) => SerialSpendsNothing(days, n, c, r, token);
  }

  lemma {:induction false} RotatedWithinChances(days: int, n: nat, c: Crowd, rs: seq<Race>, token: Token)
    requires Staffed(n, c) && Happens(days, n, c, rs)
    ensures Rotations(days, n, c, rs, token) <= Chances(n, c, token)
    decreases |rs|
  {
    if rs != [] {
      TurnSpendsChance(days, n, c, rs[0], token);
      RotatedWithinChances(days, n, Turn(days, n, c, rs[0]), rs[1..], token);
    }
  }

  /** When n workers refresh at once, a token is accepted at most n times; once, with one worker. */
  lemma AcceptedAtMostNTimes(days: int, n: nat, db: Db, rs: seq<Race>, token: Token)
    requires Happens(days, n, Crowd(db, map[]), rs)
    ensures Rotations(days, n, Crowd(db, map[]), rs, token) <= n
  {
    RotatedWithinChances(days, n, Crowd(db, map[]), rs, token);
  }

  /** A refresh on its own is a lookup and, if that admits, a rotation. */
  lemma RefreshIsTwoSteps(days: int, db: Db, token: Token, next: Token, now: int)
    ensures var c := Turn(days, 1, Crowd(db, map[]), Looks(0, token, now));
            var (d, r) := AfterRefresh(db, days, token, next, now);
            if Admits(db, token, now) then
              && CanHappen(1, c, Rotates(0, next, now)) && Turn(days, 1, c, Rotates(0, next, now)) == Crowd(d, map[])
              && (Rotation(days, c, Rotates(0, next, now), token) <==> r.Success?)
            else c == Crowd(db, map[]) && d == db && r.Failure?
  {
    var c := Turn(days, 1, Crowd(db, map[]), Looks(0, token, now));
    assert c.pending - {0} == map[];
  }

  // ---- sessions run out --------------------------------------------------------------------------

  lemma TurnKeepsExpiry(days: int, n: nat, c: Crowd, r: Race, token: Token)
    requires CanHappen(n, c, r) && token in c.db.sessions
    ensures var d := Turn(days, n, c, r).db;
            token in d.sessions && d.sessions[token].expires == c.db.sessions[token].expires
  {
    if r.Serial? {
      StepIssues(days, World(c.db, 0, map[]), r.step, token);
      hide Apply;
    }
  }

  lemma {:induction false} RacesKeepExpiry(days: int, n: nat, c: Crowd, rs: seq<Race>, token: Token)
    requires Happens(days, n, c, rs) && token in c.db.sessions
    ensures var d := Outcomes(days, n, c, rs).db;
            token in d.sessions && d.sessions[token].expires == c.db.sessions[token].expires
    decreases |rs|
  {
    if rs != [] {
      TurnKeepsExpiry(days, n, c, rs[0], token);
      RacesKeepExpiry(days, n, Turn(days, n, c, rs[0]), rs[1..], token);
    }
  }

  /** However refreshes overlap, a lookup lets a worker go on with a token only before the instant at which
      the session was to run out when it was issued, unrevoked, and for an active user. */
  lemma AdmittedBeforeExpiry(days: int, n: nat, db: Db, rs: seq<Race>, worker: nat, token: Token, now: int)
    requires Happens(days, n, Crowd(db, map[]), rs) && token in db.sessions
    requires CanHappen(n, Outcomes(days, n, Crowd(db, map[]), rs), Looks(worker, token, now))
    ensures var c := Outcomes(days, n, Crowd(db, map[]), rs);
            && token in c.db.sessions
            && (worker in Turn(days, n, c, Looks(worker, token, now)).pending
                <==> now < db.sessions[token].expires && c.db.sessions[token].revokedAt == None
                     && Welcome(c.db, c.db.sessions[token].user))
  {
    RacesKeepExpiry(days, n, Crowd(db, map[]), rs, token);
  }

  // ---- the bound is exact ------------------------------------------------------------------------

  function AllLook(k: nat, n: nat, token: Token, now: int): seq<Race>
    requires k <= n
    decreases n - k
  {
    if k == n then [] else [Looks(k, token, now)] + AllLook(k + 1, n, token, now)
  }

  function AllRotate(k: nat, n: nat, first: Token, now: int): seq<Race>
    requires k <= n
    decreases n - k
  {
    if k == n then [] else [Rotates(k, first + k, now)] + AllRotate(k + 1, n, first, now)
  }

  lemma {:induction false} AllAreAdmitted(days: int, n: nat, c: Crowd, k: nat, token: Token, now: int)
    requires k <= n && Admits(c.db, token, now)
    requires forall i :: i in c.pending <==> 0 <= i < k
    requires forall i :: i in c.pending ==> c.pending[i] == token
    ensures Happens(days, n, c, AllLook(k, n, token, now))
    ensures Rotations(days, n, c, AllLook(k, n, token, now), token) == 0
    ensures var d := Outcomes(days, n, c, AllLook(k, n, token, now));
            d.db == c.db && forall i :: 0 <= i < n ==> i in d.pending && d.pending[i] == token
    decreases n - k
  {
    if k < n {
      AllAreAdmitted(days, n, Turn(days, n, c, Looks(k, token, now)), k + 1, token, now);
    }
  }

  predicate AllLive(db: Db, first: Token, m: nat) {
    forall t :: first <= t < first + m ==> t in db.sessions && db.sessions[t].revokedAt == None
  }

  lemma {:induction false} AllAreAccepted(days: int, n: nat, c: Crowd, k: nat, token: Token, first: Token, now: int)
    requires k <= n && token in c.db.sessions && token < first
    requires forall i :: k <= i < n ==> i in c.pending && c.pending[i] == token
    requires forall t :: t in c.db.sessions ==> t < first + k
    requires AllLive(c.db, first, k)
    ensures var rs := AllRotate(k, n, first, now);
            && Happens(days, n, c, rs) && Rotations(days, n, c, rs, token) == n - k
            && AllLive(Outcomes(days, n, c, rs).db, first, n)
    decreases n - k
  {
    var rs := AllRotate(k, n, first, now);
    if k < n {
      var d := Turn(days, n, c, Rotates(k, first + k, now));
      assert rs[0] == Rotates(k, first + k, now) && rs[1..] == AllRotate(k + 1, n, first, now);
      assert d.db.sessions.Keys == c.db.sessions.Keys + {first + k} && d.pending == c.pending - {k};
      assert AllLive(d.db, first, k + 1);
      hide AllLive;
      AllAreAccepted(days, n, d, k + 1, token, first, now);
      assert Outcomes(days, n, c, rs) == Outcomes(days, n, d, rs[1..]);
    }
  }

  lemma {:induction false} RacesAddUp(days: int, n: nat, c: Crowd, a: seq<Race>, b: seq<Race>, token: Token)
    requires Happens(days, n, c, a) && Happens(days, n, Outcomes(days, n, c, a), b)
    ensures Happens(days, n, c, a + b)
    ensures Outcomes(days, n, c, a + b) == Outcomes(days, n, Outcomes(days, n, c, a), b)
    ensures Rotations(days, n, c, a + b, token)
            == Rotations(days, n, c, a, token) + Rotations(days, n, Outcomes(days, n, c, a), b, token)
    decreases |a|
  {
    if a == [] {
      assert a + b == b;
    } else {
      assert (a + b)[0] == a[0] && (a + b)[1..] == a[1..] + b;
      RacesAddUp(days, n, Turn(days, n, c, a[0]), a[1..], b, token);
    }
  }

  /** The bound cannot be lowered: n overlapping refreshes of a token that is active can all be accepted,
      and leave n live sessions where the login had one. */
  lemma BoundIsReached(days: int, n: nat, db: Db, token: Token, first: Token, now: int) returns (rs: seq<Race>)
    requires Admits(db, token, now) && token < first
    requires forall t :: t in db.sessions ==> t < first
    ensures Happens(days, n, Crowd(db, map[]), rs) && Rotations(days, n, Crowd(db, map[]), rs, token) == n
    ensures AllLive(Outcomes(days, n, Crowd(db, map[]), rs).db, first, n)
  {
    var c := Crowd(db, map[]);
    var looks, rotates := AllLook(0, n, token, now), AllRotate(0, n, first, now);
    AllAreAdmitted(days, n, c, 0, token, now);
    var d := Outcomes(days, n, c, looks);
    hide Happens, Outcomes, Rotations;
    AllAreAccepted(days, n, d, 0, token, first, now);
    RacesAddUp(days, n, c, looks, rotates, token);
    rs := looks + rotates;
  }

  // ---- sessions without bound --------------------------------------------------------------------

  function LiveTokens(db: Db): set<Token> {
    set t | t in db.sessions && db.sessions[t].revokedAt == None
  }

  // Two workers turn one live token into two, of which the second is raced next.
  function Split(token: Token, first: Token, now: int): seq<Race> {
    [Looks(0, token, now), Looks(1, token, now), Rotates(0, first, now), Rotates(1, first + 1, now)]
  }

  function Splits(m: nat, token: Token, first: Token, now: int): seq<Race> {
    if m == 0 then [] else Split(token, first, now) + Splits(m - 1, first + 1, first + 2, now)
  }

  lemma OneRace(days: int, n: nat, c: Crowd, r: Race, rs: seq<Race>)
    requires CanHappen(n, c, r) && Happens(days, n, Turn(days, n, c, r), rs)
    ensures Happens(days, n, c, [r] + rs)
    ensures Outcomes(days, n, c, [r] + rs) == Outcomes(days, n, Turn(days, n, c, r), rs)
  {
    assert ([r] + rs)[1..] == rs;
  }

  // Both have looked while the token was live.
  lemma BothLook(days: int, n: nat, c: Crowd, token: Token, now: int)
    requires n >= 2 && c.pending == map[] && Admits(c.db, token, now)
    ensures var d := Turn(days, n, c, Looks(0, token, now));
            && CanHappen(n, c, Looks(0, token, now)) && CanHappen(n, d, Looks(1, token, now))
            && Turn(days, n, d, Looks(1, token, now)) == Crowd(c.db, map[0 := token, 1 := token])
  {
  }

  function Handed(db: Db, days: int, token: Token, next: Token, now: int): Db
    requires token in db.sessions && next !in db.sessions
  {
    Rotated(db, days, token, next, now).value
  }

  lemma BothRotate(days: int, n: nat, db: Db, token: Token, first: Token, now: int)
    requires token in db.sessions && token < first && forall t :: t in db.sessions ==> t < first
    ensures var c := Crowd(db, map[0 := token, 1 := token]);
            var d := Turn(days, n, c, Rotates(0, first, now));
            && CanHappen(n, c, Rotates(0, first, now)) && CanHappen(n, d, Rotates(1, first + 1, now))
            && Turn(days, n, d, Rotates(1, first + 1, now))
               == Crowd(Handed(Handed(db, days, token, first, now), days, token, first + 1, now), map[])
  {
    var c := Crowd(db, map[0 := token, 1 := token]);
    assert c.pending - {0} == map[1 := token] && c.pending - {0} - {1} == map[];
  }

  lemma TwoForOne(days: int, db: Db, token: Token, first: Token, now: int)
    requires days > 0 && Admits(db, token, now) && token < first && forall t :: t in db.sessions ==> t < first
    ensures var d := Handed(Handed(db, days, token, first, now), days, token, first + 1, now);
            && Admits(d, first + 1, now) && (forall t :: t in d.sessions ==> t < first + 2)
            && |LiveTokens(d)| == |LiveTokens(db)| + 1
  {
    var d := Handed(Handed(db, days, token, first, now), days, token, first + 1, now);
    assert LiveTokens(d) == LiveTokens(db) - {token} + {first, first + 1};
    assert token in LiveTokens(db) && first !in LiveTokens(db) && first + 1 !in LiveTokens(db);
  }

  lemma SplitAddsOne(days: int, n: nat, c: Crowd, token: Token, first: Token, now: int)
    requires n >= 2 && days > 0 && c.pending == map[] && Admits(c.db, token, now)
    requires token < first && forall t :: t in c.db.sessions ==> t < first
    ensures Happens(days, n, c, Split(token, first, now))
    ensures var d := Outcomes(days, n, c, Split(token, first, now));
            && d.pending == map[] && Admits(d.db, first + 1, now)
            && (forall t :: t in d.db.sessions ==> t < first + 2)
            && |LiveTokens(d.db)| == |LiveTokens(c.db)| + 1
  {
    BothLook(days, n, c, token, now);
    BothRotate(days, n, c.db, token, first, now);
    TwoForOne(days, c.db, token, first, now);
    hide Turn, CanHappen, LiveTokens, Handed, Happens, Outcomes;
    var rs := Split(token, first, now);
    var c1 := Turn(days, n, c, rs[0]);
    var c2 := Turn(days, n, c1, rs[1]);
    var c3 := Turn(days, n, c2, rs[2]);
    NoRace(days, n, Turn(days, n, c3, rs[3]));
    OneRace(days, n, c3, rs[3], []);
    OneRace(days, n, c2, rs[2], [rs[3]] + []);
    OneRace(days, n, c1, rs[1], [rs[2]] + ([rs[3]] + []));
    OneRace(days, n, c, rs[0], [rs[1]] + ([rs[2]] + ([rs[3]] + [])));
    assert rs == [rs[0]] + ([rs[1]] + ([rs[2]] + ([rs[3]] + [])));
  }

  lemma {:induction false} SplitsAdd(days: int, n: nat, c: Crowd, m: nat, token: Token, first: Token, now: int)
    requires n >= 2 && days > 0 && c.pending == map[] && Admits(c.db, token, now)
    requires token < first && forall t :: t in c.db.sessions ==> t < first
    ensures Happens(days, n, c, Splits(m, token, first, now))
    ensures |LiveTokens(Outcomes(days, n, c, Splits(m, token, first, now)).db)| == |LiveTokens(c.db)| + m
    ensures forall r :: r in Splits(m, token, first, now) ==> r.Looks? || r.Rotates?
    decreases m
  {
    hide Happens, Outcomes, LiveTokens, Admits;
    if m == 0 {
      NoRace(days, n, c);
    } else {
      var rs := Split(token, first, now);
      SplitAddsOne(days, n, c, token, first, now);
      var d := Outcomes(days, n, c, rs);
      SplitsAdd(days, n, d, m - 1, first + 1, first + 2, now);
      RacesAddUp(days, n, c, rs, Splits(m - 1, first + 1, first + 2, now), token);
    }
  }

  lemma NoRace(days: int, n: nat, c: Crowd)
    ensures Happens(days, n, c, []) && Outcomes(days, n, c, []) == c
  {
  }

  /** With two workers or more there is no bound on the live sessions of a login: from the one session it
      opened, refreshes alone can make any number. */
  lemma SessionsAreUnbounded(days: int, n: nat, m: nat, db: Db, token: Token, now: int) returns (rs: seq<Race>)
    requires n >= 2 && days > 0 && m > 0 && db.sessions.Keys == {token} && Admits(db, token, now)
    ensures Happens(days, n, Crowd(db, map[]), rs) && forall r :: r in rs ==> r.Looks? || r.Rotates?
    ensures |LiveTokens(Outcomes(days, n, Crowd(db, map[]), rs).db)| == m
  {
    rs := Splits(m - 1, token, token + 1, now);
    assert LiveTokens(db) == {token};
    hide Happens, Outcomes, LiveTokens;
    SplitsAdd(days, n, Crowd(db, map[]), m - 1, token, token + 1, now);
  }
}

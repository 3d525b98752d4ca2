/** The fixed-window login limiter of apps/api/app/services/rate_limit_service.py. */
module RateLimit {
  import opened Wrappers

  datatype Error = RateLimited

  datatype Settings = Settings(enabled: bool, window: int, ipAttempts: int, accountAttempts: int)

  // The two key prefixes keep addresses and accounts apart.
  datatype Key = Ip(address: string) | Account(name: string)

  // A counter with no expiry yet lives on; one with an expiry in the past reads as absent.
  datatype Counter = Counter(value: nat, expires: Option<int>)

  function Read(keys: map<Key, Counter>, k: Key, now: int): nat {
    if k in keys && (keys[k].expires.None? || now < keys[k].expires.value) then keys[k].value else 0
  }

  // INCR, and EXPIRE when that created the key: a live key keeps its expiry.
  function Hit(keys: map<Key, Counter>, k: Key, window: int, now: int): map<Key, Counter> {
    var n := Read(keys, k, now);
    keys[k := Counter(n + 1, if n == 0 then Some(now + window) else keys[k].expires)]
  }

  function Limit(st: Settings, k: Key): nat {
    var limit := if k.Ip? then st.ipAttempts else st.accountAttempts;
    if limit > 0 then limit else 0
  }

  // How far a request gets before Redis fails: to neither counter, to that of its address, or to both.
  datatype Reach = Neither | IpOnly | Both
  datatype Request = Request(ip: string, account: string, at: int, reach: Reach)

  function AfterCheck(st: Settings, keys: map<Key, Counter>, q: Request): (map<Key, Counter>, Outcome<Error>) {
    if !st.enabled || q.reach == Neither then (keys, Pass)
    else if q.reach == IpOnly then (Hit(keys, Ip(q.ip), st.window, q.at), Pass)
    else
      var hits := Hit(Hit(keys, Ip(q.ip), st.window, q.at), Account(q.account), st.window, q.at);
      var passes := Read(keys, Ip(q.ip), q.at) + 1 <= st.ipAttempts
                    && Read(keys, Account(q.account), q.at) + 1 <= st.accountAttempts;
      (hits, if passes then Pass else Fail(RateLimited))
  }

  class Redis {
    var keys: map<Key, Counter>

    constructor ()
      ensures keys == map[]
    {
      keys := map[];
    }

    method Incr(k: Key, now: int) returns (n: nat)
      modifies this
      ensures n == Read(old(keys), k, now) + 1
      ensures keys == old(keys)[k := Counter(n, if n == 1 then None else old(keys)[k].expires)]
    {
      if Read(keys, k, now) > 0 {
        n := keys[k].value + 1;
        keys := keys[k := keys[k].(value := n)];
      } else {
        n := 1;
        keys := keys[k := Counter(1, None)];
      }
    }

    method Expire(k: Key, window: int, now: int)
      requires k in keys
      modifies this
      ensures keys == old(keys)[k := old(keys)[k].(expires := Some(now + window))]
    {
      keys := keys[k := keys[k].(expires := Some(now + window))];
    }
  }

  class AuthRateLimiter {
    const redis: Redis
    const settings: Settings

    constructor (redis: Redis, settings: Settings)
      ensures this.redis == redis && this.settings == settings
    {
      this.redis, this.settings := redis, settings;
    }

    method CheckAndIncrement(q: Request) returns (r: Outcome<Error>)
      modifies redis
      ensures (redis.keys, r) == AfterCheck(settings, old(redis.keys), q)
    {
      if !settings.enabled {
        return Pass;
      }
      if q.reach == Neither {
        return Pass;
      }
      var ipCount := redis.Incr(Ip(q.ip), q.at);
      if ipCount == 1 {
        redis.Expire(Ip(q.ip), settings.window, q.at);
      }
      assert redis.keys == Hit(old(redis.keys), Ip(q.ip), settings.window, q.at);
      if q.reach == IpOnly {
        return Pass;
      }
      var accountCount := redis.Incr(Account(q.account), q.at);
      if accountCount == 1 {
        redis.Expire(Account(q.account), settings.window, q.at);
      }
      assert redis.keys
             == Hit(Hit(old(redis.keys), Ip(q.ip), settings.window, q.at), Account(q.account), settings.window, q.at);
      if ipCount > settings.ipAttempts {
        return Fail(RateLimited);
      }
      if accountCount > settings.accountAttempts {
        return Fail(RateLimited);
      }
      r := Pass;
    }
  }

  // ---- whole traces ------------------------------------------------------------------------------

  predicate Ordered(now: int, qs: seq<Request>) {
    && (forall i :: 0 <= i < |qs| ==> now <= qs[i].at)
    && (forall i, j :: 0 <= i < j < |qs| ==> qs[i].at <= qs[j].at)
  }

  function After(st: Settings, keys: map<Key, Counter>, qs: seq<Request>): map<Key, Counter>
    decreases |qs|
  {
    if qs == [] then keys else After(st, AfterCheck(st, keys, qs[0]).0, qs[1..])
  }

  // The requests a counter stands for that were let through.
  predicate Admitted(st: Settings, keys: map<Key, Counter>, q: Request, k: Key) {
    (k == Ip(q.ip) || k == Account(q.account)) && q.reach == Both && AfterCheck(st, keys, q).1.Pass?
  }

  function AdmittedIn(st: Settings, keys: map<Key, Counter>, qs: seq<Request>, k: Key, from: int, to: int): nat
    decreases |qs|
  {
    if qs == [] then 0
    else
      (if from <= qs[0].at < to && Admitted(st, keys, qs[0], k) then 1 else 0)
      + AdmittedIn(st, AfterCheck(st, keys, qs[0]).0, qs[1..], k, from, to)
  }

  function Left(st: Settings, k: Key, c: Counter): nat {
    if c.value < Limit(st, k) then Limit(st, k) - c.value else 0
  }

  // Every counter runs out within one window.
  predicate Timely(st: Settings, keys: map<Key, Counter>, now: int) {
    forall k :: k in keys ==> keys[k].expires.Some? && keys[k].expires.value <= now + st.window
  }

  // At most this many pass in an interval of the window's length: an interval that opens inside a window
  // misses the request that opened it.
  function Most(limit: nat): nat {
    if limit == 0 then 0 else 2 * limit - 1
  }

  // How many more requests on key k can still pass in [a, a + window), seen from now.
  function Budget(st: Settings, keys: map<Key, Counter>, k: Key, a: int, now: int): nat
    requires Timely(st, keys, now)
  {
    if now >= a + st.window then 0
    else if now < a then Most(Limit(st, k))
    else if Read(keys, k, now) == 0 then Limit(st, k)
    else if keys[k].expires.value >= a + st.window then Left(st, k, keys[k])
    else Left(st, k, keys[k]) + Limit(st, k)
  }

  lemma CheckedSpendsBudget(st: Settings, keys: map<Key, Counter>, q: Request, k: Key, a: int, now: int)
    requires st.enabled && Timely(st, keys, now) && now <= q.at && q.reach == Both
    ensures Timely(st, AfterCheck(st, keys, q).0, q.at)
    ensures Budget(st, AfterCheck(st, keys, q).0, k, a, q.at)
            + (if a <= q.at < a + st.window && Admitted(st, keys, q, k) then 1 else 0)
            <= Budget(st, keys, k, a, now)
  {
  }

  lemma UncheckedSpendsNothing(st: Settings, keys: map<Key, Counter>, q: Request, k: Key, a: int, now: int)
    requires st.enabled && Timely(st, keys, now) && now <= q.at && q.reach != Both
    ensures Timely(st, AfterCheck(st, keys, q).0, q.at)
    ensures Budget(st, AfterCheck(st, keys, q).0, k, a, q.at)
            + (if a <= q.at < a + st.window && Admitted(st, keys, q, k) then 1 else 0)
            <= Budget(st, keys, k, a, now)
  {
  }

  lemma RequestSpendsBudget(st: Settings, keys: map<Key, Counter>, q: Request, k: Key, a: int, now: int)
    requires st.enabled && Timely(st, keys, now) && now <= q.at
    ensures Timely(st, AfterCheck(st, keys, q).0, q.at)
    ensures Budget(st, AfterCheck(st, keys, q).0, k, a, q.at)
            + (if a <= q.at < a + st.window && Admitted(st, keys, q, k) then 1 else 0)
            <= Budget(st, keys, k, a, now)
  {
    hide AfterCheck, Budget, Admitted;
    if q.reach == Both {
      CheckedSpendsBudget(st, keys, q, k, a, now);
    } else {
      UncheckedSpendsNothing(st, keys, q, k, a, now);
    }
  }

  lemma {:induction false} TraceWithinBudget(st: Settings, keys: map<Key, Counter>, qs: seq<Request>, k: Key, a: int,
                                             now: int)
    requires st.enabled && Timely(st, keys, now) && Ordered(now, qs)
    ensures AdmittedIn(st, keys, qs, k, a, a + st.window) <= Budget(st, keys, k, a, now)
    decreases |qs|
  {
    if qs != [] {
      RequestSpendsBudget(st, keys, qs[0], k, a, now);
      TraceWithinBudget(st, AfterCheck(st, keys, qs[0]).0, qs[1..], k, a, qs[0].at);
    }
  }

  lemma {:induction false} AfterIsTimely(st: Settings, keys: map<Key, Counter>, qs: seq<Request>, now: int, end: int)
    requires st.enabled && Timely(st, keys, now) && Ordered(now, qs)
    requires now <= end && forall q :: q in qs ==> q.at <= end
    ensures Timely(st, After(st, keys, qs), end)
    decreases |qs|
  {
    if qs != [] {
      AfterIsTimely(st, AfterCheck(st, keys, qs[0]).0, qs[1..], qs[0].at, end);
    }
  }

  /** Over every trace, at most 2 * limit - 1 requests of an address or account pass in any half-open
      interval of the window's length. */
  lemma UnderTwiceTheLimit(st: Settings, qs: seq<Request>, k: Key, a: int, now: int)
    requires st.enabled && Ordered(now, qs)
    ensures AdmittedIn(st, map[], qs, k, a, a + st.window) <= Most(Limit(st, k))
  {
    var early := if now < a then now else a - 1;
    TraceWithinBudget(st, map[], qs, k, a, early);
  }

  /** Once a counter has run out, at most the limit passes in the window that opens at that moment or later. */
  lemma LimitPerWindow(st: Settings, before: seq<Request>, window: seq<Request>, k: Key, now: int, opening: int)
    requires st.enabled && Ordered(now, before) && Ordered(opening, window)
    requires now <= opening && forall q :: q in before ==> q.at <= opening
    requires Read(After(st, map[], before), k, opening) == 0
    ensures AdmittedIn(st, After(st, map[], before), window, k, opening, opening + st.window) <= Limit(st, k)
  {
    AfterIsTimely(st, map[], before, now, opening);
    TraceWithinBudget(st, After(st, map[], before), window, k, opening, opening);
  }

  // ---- nothing goes uncounted --------------------------------------------------------------------

  predicate Reaches(q: Request, k: Key) {
    (k == Ip(q.ip) && q.reach != Neither) || (k == Account(q.account) && q.reach == Both)
  }

  function Attempts(qs: seq<Request>, k: Key): nat {
    if qs == [] then 0
    else (if Reaches(qs[0], k) then 1 else 0) + Attempts(qs[1..], k)
  }

  /** While a key's window lasts its counter goes up by one for every attempt that reaches Redis, those
      that are refused included, and nothing prolongs the window. */
  lemma {:induction false} EveryAttemptCounts(st: Settings, keys: map<Key, Counter>, qs: seq<Request>, k: Key,
                                              now: int, end: int)
    requires st.enabled && Ordered(now, qs) && forall q :: q in qs ==> q.at <= end
    requires Read(keys, k, now) > 0 && keys[k].expires.Some? && end < keys[k].expires.value
    ensures var after := After(st, keys, qs);
            && k in after && after[k].expires == keys[k].expires
            && Read(after, k, end) == Read(keys, k, now) + Attempts(qs, k)
    decreases |qs|
  {
    if qs != [] {
      EveryAttemptCounts(st, AfterCheck(st, keys, qs[0]).0, qs[1..], k, qs[0].at, end);
    }
  }

  /** A request is refused exactly when the limiter is on, Redis answers throughout, and, this attempt
      counted, its address or its account has made more attempts in the current window than it may. */
  lemma RefusedIff(st: Settings, keys: map<Key, Counter>, q: Request)
    requires Timely(st, keys, q.at) && st.window > 0
    ensures var (after, r) := AfterCheck(st, keys, q);
            && (r == Fail(RateLimited)
                <==> st.enabled && q.reach == Both
                     && (Read(after, Ip(q.ip), q.at) > st.ipAttempts
                         || Read(after, Account(q.account), q.at) > st.accountAttempts))
            && (!st.enabled || q.reach == Neither ==> after == keys)
            && (st.enabled ==> forall k :: Read(after, k, q.at) == Read(keys, k, q.at) + if Reaches(q, k) then 1 else 0)
  {
  }

  // ---- the bound is exact ------------------------------------------------------------------------

  function Burst(ip: string, account: string, m: nat, at: int): seq<Request> {
    if m == 0 then [] else [Request(ip, account, at, Both)] + Burst(ip, account, m - 1, at)
  }

  // Both counters of a client stand at n, and n requests ago one window was opened for both.
  predicate Level(keys: map<Key, Counter>, ip: string, account: string, n: nat, now: int, expires: int) {
    && Read(keys, Ip(ip), now) == n && Read(keys, Account(account), now) == n
    && (n > 0 ==> keys[Ip(ip)].expires == keys[Account(account)].expires == Some(expires))
  }

  lemma {:induction false} BurstPasses(st: Settings, keys: map<Key, Counter>, ip: string, account: string, n: nat,
                                       m: nat,
                                       at: int, expires: int, from: int, to: int)
    requires st.enabled && at < expires && Level(keys, ip, account, n, at, expires)
    requires n == 0 ==> expires == at + st.window
    requires n + m <= Limit(st, Ip(ip)) && n + m <= Limit(st, Account(account))
    ensures AdmittedIn(st, keys, Burst(ip, account, m, at), Ip(ip), from, to) == if from <= at < to then m else 0
    ensures Level(After(st, keys, Burst(ip, account, m, at)), ip, account, n + m, at, expires)
    decreases m
  {
    if m > 0 {
      var qs := Burst(ip, account, m, at);
      assert qs[1..] == Burst(ip, account, m - 1, at);
      BurstPasses(st, AfterCheck(st, keys, qs[0]).0, ip, account, n + 1, m - 1, at, expires, from, to);
    }
  }

  lemma {:induction false} TracesAddUp(st: Settings, keys: map<Key, Counter>, a: seq<Request>, b: seq<Request>,
                                       k: Key, from: int, to: int)
    ensures After(st, keys, a + b) == After(st, After(st, keys, a), b)
    ensures AdmittedIn(st, keys, a + b, k, from, to)
            == AdmittedIn(st, keys, a, k, from, to) + AdmittedIn(st, After(st, keys, a), b, k, from, to)
    decreases |a|
  {
    if a == [] {
      assert a + b == b;
    } else {
      assert (a + b)[1..] == a[1..] + b;
      TracesAddUp(st, AfterCheck(st, keys, a[0]).0, a[1..], b, k, from, to);
    }
  }

  lemma {:induction false} BurstIsSimultaneous(ip: string, account: string, m: nat, at: int)
    ensures forall q :: q in Burst(ip, account, m, at) ==> q.at == at
  {
    if m > 0 {
      BurstIsSimultaneous(ip, account, m - 1, at);
    }
  }

  lemma BurstsInOrder(ip: string, account: string, m1: nat, t1: int, m2: nat, t2: int, m3: nat, t3: int)
    requires 0 <= t1 <= t2 <= t3
    ensures Ordered(0, Burst(ip, account, m1, t1) + (Burst(ip, account, m2, t2) + Burst(ip, account, m3, t3)))
  {
    BurstIsSimultaneous(ip, account, m1, t1);
    BurstIsSimultaneous(ip, account, m2, t2);
    BurstIsSimultaneous(ip, account, m3, t3);
    var x, y, z := Burst(ip, account, m1, t1), Burst(ip, account, m2, t2), Burst(ip, account, m3, t3);
    hide Burst;
    assert forall i :: 0 <= i < |x + (y + z)| ==>
      (x + (y + z))[i] == if i < |x| then x[i] else if i < |x| + |y| then y[i - |x|] else z[i - |x| - |y|];
  }

  /** The bound cannot be lowered: one request, the rest of its window's allowance at the window's last
      instant, and a full allowance right after. */
  lemma BoundIsReached(st: Settings, ip: string, account: string) returns (qs: seq<Request>)
    requires st.enabled && st.window >= 2
    requires 0 < Limit(st, Ip(ip)) <= Limit(st, Account(account))
    ensures Ordered(0, qs)
    ensures AdmittedIn(st, map[], qs, Ip(ip), 1, 1 + st.window) == Most(Limit(st, Ip(ip)))
  {
    hide After, AdmittedIn, Ordered, Burst;
    var w, l := st.window, Limit(st, Ip(ip));
    var first, rest, next := Burst(ip, account, 1, 0), Burst(ip, account, l - 1, w - 1), Burst(ip, account, l, w);
    BurstPasses(st, map[], ip, account, 0, 1, 0, w, 1, 1 + w);
    var started := After(st, map[], first);
    BurstPasses(st, started, ip, account, 1, l - 1, w - 1, w, 1, 1 + w);
    var spent := After(st, started, rest);
    BurstPasses(st, spent, ip, account, 0, l, w, 2 * w, 1, 1 + w);
    TracesAddUp(st, started, rest, next, Ip(ip), 1, 1 + w);
    TracesAddUp(st, map[], first, rest + next, Ip(ip), 1, 1 + w);
    BurstsInOrder(ip, account, 1, 0, l - 1, w - 1, l, w);
    qs := first + (rest + next);
  }
}

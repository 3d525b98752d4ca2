/** The circuit breaker of apps/api/app/ai/gateway.py: a failure counter and an open flag in Redis, each
    with an expiry, and the counter and deadline of one process that stand in while Redis is down.
    Instants are whole microseconds of a clock that never runs backwards. */
module CircuitBreaker {
  import opened Finite
  import opened Wrappers
  import Redaction

  const SECOND: nat := 1_000_000

  datatype Error = Disabled | CircuitOpen | CallFailed

  datatype Settings = Settings(enabled: bool, failureThreshold: int, cooldownSeconds: int)

  function Threshold(st: Settings): (n: nat)
    ensures n >= 1 && n >= st.failureThreshold && (n == 1 || n == st.failureThreshold)
  {
    if st.failureThreshold > 1 then st.failureThreshold else 1
  }

  function Cooldown(st: Settings): (d: nat)
    ensures d >= 1_000_000 && d >= st.cooldownSeconds * 1_000_000
    ensures d == 1_000_000 || d == st.cooldownSeconds * 1_000_000
  {
    (if st.cooldownSeconds > 1 then st.cooldownSeconds else 1) * SECOND
  }

  // A Redis key: its value, and the instant from which it reads as absent.
  datatype Key = Key(value: nat, expires: nat)

  function Read(key: Option<Key>, now: nat): nat {
    if key.Some? && now < key.value.expires then key.value.value else 0
  }

  datatype Circuit = Circuit(counter: Option<Key>, open: Option<Key>, failures: nat, openedUntil: nat)

  const CLOSED: Circuit := Circuit(None, None, 0, 0)

  // Whether Redis answers decides which half of the circuit is in use.
  function AfterAssert(c: Circuit, redisUp: bool, now: nat): Result<Circuit, Error> {
    if redisUp then
      if Read(c.open, now) > 0 then Failure(CircuitOpen) else Success(c)
    else if c.openedUntil > now then Failure(CircuitOpen)
    else if c.openedUntil != 0 then Success(c.(failures := 0, openedUntil := 0))
    else Success(c)
  }

  function AfterFailure(st: Settings, c: Circuit, redisUp: bool, now: nat): Circuit {
    if redisUp then
      var n := Read(c.counter, now) + 1;
      if n >= Threshold(st) then c.(counter := None, open := Some(Key(1, now + Cooldown(st))))
      else c.(counter := Some(Key(n, now + Cooldown(st))))
    else
      var n := c.failures + 1;
      c.(failures := n, openedUntil := if n >= Threshold(st) then now + Cooldown(st) else c.openedUntil)
  }

  function AfterSuccess(c: Circuit, redisUp: bool): Circuit {
    if redisUp then CLOSED else c.(failures := 0, openedUntil := 0)
  }

  // ---- the gateway, as the source writes it ------------------------------------------------------

  class Redis {
    var up: bool
    var counter: Option<Key>
    var open: Option<Key>

    method ExistsOpen(now: nat) returns (r: Result<bool, Error>)
      ensures r == if up then Success(Read(open, now) > 0) else Failure(CallFailed)
    {
      if !up { return Failure(CallFailed); }
      r := Success(open.Some? && now < open.value.expires && open.value.value > 0);
    }

    // INCR keeps the expiry a live key has; the EXPIRE that follows replaces it.
    method IncrFailures(cooldown: nat, now: nat) returns (r: Result<nat, Error>)
      modifies this`counter
      ensures r == if up then Success(Read(old(counter), now) + 1) else Failure(CallFailed)
      ensures counter == if up then Some(Key(Read(old(counter), now) + 1, now + cooldown)) else old(counter)
    {
      if !up { return Failure(CallFailed); }
      var n := Read(counter, now) + 1;
      counter := Some(Key(n, now + cooldown));
      r := Success(n);
    }

    method SetOpen(cooldown: nat, now: nat)
      requires up
      modifies this`open
      ensures open == Some(Key(1, now + cooldown))
    {
      open := Some(Key(1, now + cooldown));
    }

    method DeleteFailures()
      requires up
      modifies this`counter
      ensures counter == None
    {
      counter := None;
    }

    method DeleteBoth()
      modifies this`counter, this`open
      ensures counter == (if up then None else old(counter)) && open == (if up then None else old(open))
    {
      if up {
        counter, open := None, None;
      }
    }
  }

  datatype GatewayResult = GatewayResult(text: string, redactedPrompt: string)

  class LLMGateway {
    const settings: Settings
    const redis: Redis
    const unicode: Redaction.Unicode
    var failures: nat
    var openedUntil: nat

    constructor (settings: Settings, redis: Redis, unicode: Redaction.Unicode)
      ensures this.settings == settings && this.redis == redis && this.unicode == unicode
      ensures failures == 0 && openedUntil == 0
    {
      this.settings, this.redis, this.unicode := settings, redis, unicode;
      failures, openedUntil := 0, 0;
    }

    function State(): Circuit
      reads this, redis
    {
      Circuit(redis.counter, redis.open, failures, openedUntil)
    }

    method AssertCircuitClosed(now: nat) returns (r: Outcome<Error>)
      modifies this
      ensures r == OutcomeOf(AfterAssert(old(State()), redis.up, now))
      ensures State() == match AfterAssert(old(State()), redis.up, now)
                         case Success(c) => c
                         case Failure(_) => old(State())
    {
      var answer := redis.ExistsOpen(now);
      match answer {
        case Success(true) => r := Fail(CircuitOpen);
        case Success(false) => r := Pass;
        case Failure(_) => r := AssertLocalCircuitClosed(now);
      }
    }

    method AssertLocalCircuitClosed(now: nat) returns (r: Outcome<Error>)
      modifies this
      ensures r == OutcomeOf(AfterAssert(old(State()), false, now))
      ensures State() == match AfterAssert(old(State()), false, now)
                         case Success(c) => c
                         case Failure(_) => old(State())
    {
      if openedUntil > now {
        return Fail(CircuitOpen);
      }
      if openedUntil != 0 && openedUntil <= now {
        failures := 0;
        openedUntil := 0;
      }
      r := Pass;
    }

    method RecordFailure(now: nat)
      modifies this, redis
      ensures redis.up == old(redis.up)
      ensures State() == AfterFailure(settings, old(State()), redis.up, now)
      ensures forall later: nat ::
                now + Cooldown(settings) <= later && AfterAssert(old(State()), redis.up, later).Success?
                ==> AfterAssert(State(), redis.up, later).Success?
    {
      var threshold, cooldown := Threshold(settings), Cooldown(settings);
      var n := redis.IncrFailures(cooldown, now);
      if n.Success? {
        if n.value >= threshold {
          redis.SetOpen(cooldown, now);
          redis.DeleteFailures();
        }
        return;
      }
      failures := failures + 1;
      if failures >= threshold {
        openedUntil := now + cooldown;
      }
    }

    method RecordSuccess()
      modifies this, redis
      ensures redis.up == old(redis.up)
      ensures State() == AfterSuccess(old(State()), redis.up)
    {
      failures, openedUntil := 0, 0;
      redis.DeleteBoth();
    }

    // The HTTP exchange is its outcome: an exception, or the stripped text of the first choice.
    method Suggest(prompt: string, started: nat, reply: Option<string>, ended: nat)
      returns (r: Result<GatewayResult, Error>)
      modifies this, redis
      ensures redis.up == old(redis.up)
      ensures !settings.enabled ==> r == Failure(Disabled) && State() == old(State())
      ensures settings.enabled ==>
                match AfterAssert(old(State()), redis.up, started)
                case Failure(e) => r == Failure(e) && State() == old(State())
                case Success(c) =>
                  if reply.None? || reply.value == "" then
                    r == Failure(CallFailed) && State() == AfterFailure(settings, c, redis.up, ended)
                  else
                    && r == Success(GatewayResult(reply.value, Redaction.Redact(unicode, prompt)))
                    && State() == AfterSuccess(c, redis.up)
    {
      if !settings.enabled {
        return Failure(Disabled);
      }
      var closed := AssertCircuitClosed(started);
      if closed.Fail? {
        return Failure(closed.error);
      }
      var redacted := Redaction.Redact(unicode, prompt);
      if reply.None? || reply.value == "" {
        RecordFailure(ended);
        return Failure(CallFailed);
      }
      RecordSuccess();
      r := Success(GatewayResult(reply.value, redacted));
    }
  }

  // ---- N workers, each with at most one call in flight ------------------------------------------

  datatype World = World(circuit: Circuit, inFlight: set<nat>)

  datatype Event = Starts(worker: nat, at: nat) | Fails(worker: nat, at: nat) | Succeeds(worker: nat, at: nat)

  predicate Possible(n: nat, w: World, e: Event) {
    if e.Starts? then e.worker < n && e.worker !in w.inFlight else e.worker in w.inFlight
  }

  function Next(st: Settings, redisUp: bool, w: World, e: Event): World {
    match e
    case Starts(k, at) =>
      (match AfterAssert(w.circuit, redisUp, at)
       case Success(c) => World(c, w.inFlight + {k})
       case Failure(_) => w)
    case Fails(k, at) => World(AfterFailure(st, w.circuit, redisUp, at), w.inFlight - {k})
    case Succeeds(k, _) => World(AfterSuccess(w.circuit, redisUp), w.inFlight - {k})
  }

  predicate Legal(st: Settings, redisUp: bool, n: nat, w: World, es: seq<Event>)
    decreases |es|
  {
    es == [] || (Possible(n, w, es[0]) && Legal(st, redisUp, n, Next(st, redisUp, w, es[0]), es[1..]))
  }

  function Run(st: Settings, redisUp: bool, w: World, es: seq<Event>): World
    decreases |es|
  {
    if es == [] then w else Run(st, redisUp, Next(st, redisUp, w, es[0]), es[1..])
  }

  function Failures(es: seq<Event>): nat {
    if es == [] then 0 else (if es[0].Fails? then 1 else 0) + Failures(es[1..])
  }

  const IDLE: World := World(CLOSED, {})

  // ---- what every reachable state keeps ----------------------------------------------------------

  predicate Sane(st: Settings, n: nat, w: World) {
    && (w.circuit.counter.Some? ==> w.circuit.counter.value.value < Threshold(st))
    && (w.circuit.openedUntil == 0 <==> w.circuit.failures < Threshold(st))
    && (forall k :: k in w.inFlight ==> k < n)
  }

  lemma NextIsSane(st: Settings, redisUp: bool, n: nat, w: World, e: Event)
    requires Sane(st, n, w) && Possible(n, w, e)
    ensures Sane(st, n, Next(st, redisUp, w, e))
  {
  }

  lemma {:induction false} RunIsSane(st: Settings, redisUp: bool, n: nat, w: World, es: seq<Event>)
    requires Sane(st, n, w) && Legal(st, redisUp, n, w, es)
    ensures Sane(st, n, Run(st, redisUp, w, es))
    decreases |es|
  {
    if es != [] {
      NextIsSane(st, redisUp, n, w, es[0]);
      RunIsSane(st, redisUp, n, Next(st, redisUp, w, es[0]), es[1..]);
    }
  }

  lemma {:induction false} LegalConcat(st: Settings, redisUp: bool, n: nat, w: World, a: seq<Event>, b: seq<Event>)
    ensures Legal(st, redisUp, n, w, a + b)
            <==> Legal(st, redisUp, n, w, a) && Legal(st, redisUp, n, Run(st, redisUp, w, a), b)
    decreases |a|
  {
    if a == [] {
      assert a + b == b;
    } else {
      assert (a + b)[0] == a[0] && (a + b)[1..] == a[1..] + b;
      LegalConcat(st, redisUp, n, Next(st, redisUp, w, a[0]), a[1..], b);
    }
  }

  // ---- the bound ---------------------------------------------------------------------------------

  // The circuit has opened in the window that began at a, and stays open past the window's end.
  predicate Tripped(st: Settings, redisUp: bool, c: Circuit, a: nat) {
    if redisUp then c.open.Some? && c.open.value.value == 1 && c.open.value.expires >= a + Cooldown(st)
    else c.openedUntil >= a + Cooldown(st)
  }

  // The counter has seen every one of the window's k failures, and outlives the window.
  predicate Counted(st: Settings, redisUp: bool, c: Circuit, a: nat, k: nat) {
    if redisUp then c.counter.Some? && k <= c.counter.value.value && c.counter.value.expires >= a + Cooldown(st)
    else k <= c.failures < Threshold(st)
  }

  predicate Bounded(st: Settings, redisUp: bool, n: nat, w: World, a: nat, k: nat) {
    || k == 0
    || Counted(st, redisUp, w.circuit, a, k)
    || (Tripped(st, redisUp, w.circuit, a) && k + |w.inFlight| <= Threshold(st) + n - 1)
  }

  lemma StepKeepsBound(st: Settings, redisUp: bool, n: nat, w: World, a: nat, k: nat, e: Event)
    requires Sane(st, n, w) && Possible(n, w, e) && !e.Succeeds?
    requires a <= e.at < a + Cooldown(st)
    requires Bounded(st, redisUp, n, w, a, k)
    ensures Bounded(st, redisUp, n, Next(st, redisUp, w, e), a, k + if e.Fails? then 1 else 0)
  {
    AtMostSoMany(n, w.inFlight);
    if e.Fails? {
      var v := Next(st, redisUp, w, e);
      assert |v.inFlight| == |w.inFlight| - 1;
      assert Counted(st, redisUp, v.circuit, a, k + 1) || Tripped(st, redisUp, v.circuit, a);
    }
  }

  lemma {:induction false} WindowIsBounded(st: Settings, redisUp: bool, n: nat, w: World, a: nat, k: nat,
                                           es: seq<Event>)
    requires Sane(st, n, w) && Legal(st, redisUp, n, w, es) && Bounded(st, redisUp, n, w, a, k)
    requires forall e :: e in es ==> a <= e.at < a + Cooldown(st) && !e.Succeeds?
    ensures k + Failures(es) <= Threshold(st) + n - 1
    decreases |es|
  {
    if es == [] {
    } else {
      StepKeepsBound(st, redisUp, n, w, a, k, es[0]);
      NextIsSane(st, redisUp, n, w, es[0]);
      WindowIsBounded(st, redisUp, n, Next(st, redisUp, w, es[0]), a, k + (if es[0].Fails? then 1 else 0), es[1..]);
    }
  }

  /** However the calls of n workers interleave, a stretch of a run that is shorter than the cooldown and
      sees no success records at most threshold + n - 1 failures: with Redis up throughout, for all the
      workers together, and with Redis down throughout, for the workers of one process. */
  lemma FailuresPerCooldown(st: Settings, redisUp: bool, n: nat, before: seq<Event>, window: seq<Event>, a: nat)
    requires Legal(st, redisUp, n, IDLE, before + window)
    requires forall e :: e in window ==> a <= e.at < a + Cooldown(st) && !e.Succeeds?
    ensures Failures(window) <= Threshold(st) + n - 1
  {
    LegalConcat(st, redisUp, n, IDLE, before, window);
    RunIsSane(st, redisUp, n, IDLE, before);
    WindowIsBounded(st, redisUp, n, Run(st, redisUp, IDLE, before), a, 0, window);
  }

  // ---- it does not open early --------------------------------------------------------------------

  // The failures since the last success of a run.
  function Consecutive(es: seq<Event>): nat {
    if es == [] then 0
    else
      match es[|es| - 1]
      case Starts(_, _) => Consecutive(es[..|es| - 1])
      case Fails(_, _) => Consecutive(es[..|es| - 1]) + 1
      case Succeeds(_, _) => 0
  }

  predicate Justified(st: Settings, redisUp: bool, c: Circuit, k: nat) {
    if redisUp then (c.counter.Some? ==> c.counter.value.value <= k) && (c.open.Some? ==> k >= Threshold(st))
    else c.failures <= k && (c.openedUntil != 0 ==> k >= Threshold(st))
  }

  lemma {:induction false} RunIsJustified(st: Settings, redisUp: bool, n: nat, done: seq<Event>, es: seq<Event>,
                                          w: World)
    requires Legal(st, redisUp, n, w, es) && Justified(st, redisUp, w.circuit, Consecutive(done))
    ensures Justified(st, redisUp, Run(st, redisUp, w, es).circuit, Consecutive(done + es))
    decreases |es|
  {
    if es == [] {
      assert done + es == done;
    } else {
      assert (done + [es[0]])[..|done|] == done && done + es == (done + [es[0]]) + es[1..];
      RunIsJustified(st, redisUp, n, done + [es[0]], es[1..], Next(st, redisUp, w, es[0]));
    }
  }

  /** A call is turned away only after as many consecutive failures as the threshold says. */
  lemma OpensOnlyOnThreshold(st: Settings, redisUp: bool, n: nat, es: seq<Event>, now: nat)
    requires Legal(st, redisUp, n, IDLE, es)
    requires AfterAssert(Run(st, redisUp, IDLE, es).circuit, redisUp, now).Failure?
    ensures Consecutive(es) >= Threshold(st)
  {
    RunIsJustified(st, redisUp, n, [], es, IDLE);
    assert [] + es == es;
  }

  // ---- and lets calls through again --------------------------------------------------------------

  // When the last failure of a run was.
  function LastFailure(es: seq<Event>): Option<nat> {
    if es == [] then None
    else if es[|es| - 1].Fails? then Some(es[|es| - 1].at)
    else LastFailure(es[..|es| - 1])
  }

  // The failures of a run that count together: those since the last success and, where Redis counts them,
  // since the last time that a full cooldown went by without one.
  function Streak(st: Settings, redisUp: bool, es: seq<Event>): nat {
    if es == [] then 0
    else
      var front, last := es[..|es| - 1], es[|es| - 1];
      match last
      case Starts(_, _) => Streak(st, redisUp, front)
      case Succeeds(_, _) => 0
      case Fails(_, at) =>
        var gap := redisUp && LastFailure(front).Some? && LastFailure(front).value + Cooldown(st) <= at;
        1 + if gap then 0 else Streak(st, redisUp, front)
  }

  // Event i is the failure that turns calls away until a cooldown later: it made its streak as long as the
  // threshold, and nothing has succeeded since.
  predicate Opening(st: Settings, redisUp: bool, es: seq<Event>, i: nat, until: nat) {
    && i < |es| && es[i].Fails? && until == es[i].at + Cooldown(st)
    && Streak(st, redisUp, es[..i + 1]) >= Threshold(st)
    && forall j :: i < j < |es| ==> !es[j].Succeeds?
  }

  ghost predicate Opened(st: Settings, redisUp: bool, es: seq<Event>, until: nat) {
    exists i: nat :: Opening(st, redisUp, es, i, until)
  }

  // What the circuit holds is owed to the run.
  ghost predicate Owed(st: Settings, redisUp: bool, c: Circuit, es: seq<Event>) {
    if redisUp then
      && (c.counter.Some? ==> c.counter.value.value <= Streak(st, redisUp, es)
                              && LastFailure(es).Some?
                              && c.counter.value.expires == LastFailure(es).value + Cooldown(st))
      && (c.open.Some? ==> Opened(st, redisUp, es, c.open.value.expires))
    else
      c.failures <= Streak(st, redisUp, es) && (c.openedUntil != 0 ==> Opened(st, redisUp, es, c.openedUntil))
  }

  lemma StaysOpened(st: Settings, redisUp: bool, es: seq<Event>, e: Event, until: nat)
    requires Opened(st, redisUp, es, until) && !e.Succeeds?
    ensures Opened(st, redisUp, es + [e], until)
  {
    var i: nat :| Opening(st, redisUp, es, i, until);
    assert (es + [e])[..i + 1] == es[..i + 1];
    assert Opening(st, redisUp, es + [e], i, until);
  }

  lemma OpensNow(st: Settings, redisUp: bool, es: seq<Event>, e: Event)
    requires e.Fails? && Streak(st, redisUp, es + [e]) >= Threshold(st)
    ensures Opened(st, redisUp, es + [e], e.at + Cooldown(st))
  {
    assert (es + [e])[..|es| + 1] == es + [e];
    assert Opening(st, redisUp, es + [e], |es|, e.at + Cooldown(st));
  }

  lemma StreakGrows(st: Settings, redisUp: bool, es: seq<Event>, e: Event)
    ensures var all := es + [e];
            && LastFailure(all) == (if e.Fails? then Some(e.at) else LastFailure(es))
            && Streak(st, redisUp, all)
               == match e
                  case Starts(_, _) => Streak(st, redisUp, es)
                  case Succeeds(_, _) => 0
                  case Fails(_, at) =>
                    if redisUp && LastFailure(es).Some? && LastFailure(es).value + Cooldown(st) <= at then 1
                    else Streak(st, redisUp, es) + 1
  {
    assert (es + [e])[..|es|] == es;
  }

  lemma NextIsOwed(st: Settings, redisUp: bool, w: World, done: seq<Event>, e: Event)
    requires Owed(st, redisUp, w.circuit, done)
    ensures Owed(st, redisUp, Next(st, redisUp, w, e).circuit, done + [e])
  {
    StreakGrows(st, redisUp, done, e);
    hide Streak, LastFailure, Opened;
    var c, d := w.circuit, Next(st, redisUp, w, e).circuit;
    if redisUp && d.open.Some? {
      if d.open == c.open {
        StaysOpened(st, redisUp, done, e, d.open.value.expires);
      } else {
        OpensNow(st, redisUp, done, e);
      }
    }
    if !redisUp && d.openedUntil != 0 {
      if d.failures >= Threshold(st) && e.Fails? {
        OpensNow(st, redisUp, done, e);
      } else {
        StaysOpened(st, redisUp, done, e, d.openedUntil);
      }
    }
  }

  lemma {:induction false} RunIsOwed(st: Settings, redisUp: bool, w: World, done: seq<Event>, es: seq<Event>)
    requires Owed(st, redisUp, w.circuit, done)
    ensures Owed(st, redisUp, Run(st, redisUp, w, es).circuit, done + es)
    decreases |es|
  {
    hide Owed, Next;
    if es == [] {
      assert done + es == done;
    } else {
      NextIsOwed(st, redisUp, w, done, es[0]);
      RunIsOwed(st, redisUp, Next(st, redisUp, w, es[0]), done + [es[0]], es[1..]);
      assert done + [es[0]] + es[1..] == done + es;
    }
  }

  /** A call is turned away only on account of one failure: less than a cooldown ago, at least the threshold-th
      of its streak, and with no success since. A streak is broken by a success and, where Redis counts, by a
      cooldown without a failure. */
  lemma RefusalIsOwed(st: Settings, redisUp: bool, es: seq<Event>, now: nat) returns (i: nat)
    requires AfterAssert(Run(st, redisUp, IDLE, es).circuit, redisUp, now).Failure?
    ensures i < |es| && es[i].Fails? && now < es[i].at + Cooldown(st)
    ensures Streak(st, redisUp, es[..i + 1]) >= Threshold(st)
    ensures forall j :: i < j < |es| ==> !es[j].Succeeds?
  {
    var c := Run(st, redisUp, IDLE, es).circuit;
    RunIsOwed(st, redisUp, IDLE, [], es);
    assert [] + es == es;
    hide Run, Streak;
    i :| Opening(st, redisUp, es, i, if redisUp then c.open.value.expires else c.openedUntil);
  }

  /** So once a full cooldown has passed since the last failure, every call is let through, with Redis up or
      with Redis down. */
  lemma AdmitsAfterCooldown(st: Settings, redisUp: bool, es: seq<Event>, now: nat)
    requires forall i :: 0 <= i < |es| && es[i].Fails? ==> es[i].at + Cooldown(st) <= now
    ensures AfterAssert(Run(st, redisUp, IDLE, es).circuit, redisUp, now).Success?
  {
    if AfterAssert(Run(st, redisUp, IDLE, es).circuit, redisUp, now).Failure? {
      var _ := RefusalIsOwed(st, redisUp, es, now);
    }
  }

  // The circuit after failures at these instants, one after another.
  function AfterFailures(st: Settings, c: Circuit, redisUp: bool, ts: seq<nat>): Circuit {
    if ts == [] then c else AfterFailure(st, AfterFailures(st, c, redisUp, ts[..|ts| - 1]), redisUp, ts[|ts| - 1])
  }

  // At most k failures counted, and no refusal from now on.
  predicate Tolerates(c: Circuit, redisUp: bool, k: nat, now: nat) {
    if redisUp then (c.counter.Some? ==> c.counter.value.value <= k) && Read(c.open, now) == 0
    else c.failures <= k && c.openedUntil == 0
  }

  lemma {:induction false} FewFailuresAreTolerated(st: Settings, c: Circuit, redisUp: bool, ts: seq<nat>, now: nat)
    requires Tolerates(c, redisUp, 0, now) && |ts| < Threshold(st)
    ensures Tolerates(AfterFailures(st, c, redisUp, ts), redisUp, |ts|, now)
  {
    if ts != [] {
      FewFailuresAreTolerated(st, c, redisUp, ts[..|ts| - 1], now);
    }
  }

  /** Opening starts the count afresh: a circuit that a failure has opened and that, its cooldown over, lets a
      call through turns none away before as many further failures as the threshold says. */
  lemma OpeningStartsAfresh(st: Settings, redisUp: bool, c: Circuit, failed: nat, admitted: nat, ts: seq<nat>, now: nat)
    requires AfterAssert(c, redisUp, failed).Success?
    requires AfterAssert(AfterFailure(st, c, redisUp, failed), redisUp, failed).Failure?
    requires AfterAssert(AfterFailure(st, c, redisUp, failed), redisUp, admitted).Success?
    requires |ts| < Threshold(st) && admitted <= now
    ensures var d := AfterAssert(AfterFailure(st, c, redisUp, failed), redisUp, admitted).value;
            AfterAssert(AfterFailures(st, d, redisUp, ts), redisUp, now).Success?
  {
    var d := AfterAssert(AfterFailure(st, c, redisUp, failed), redisUp, admitted).value;
    FewFailuresAreTolerated(st, d, redisUp, ts, now);
  }

  /** And so does a success: recorded with Redis up it clears both states, with Redis down the process's. */
  lemma SuccessStartsAfresh(st: Settings, c: Circuit, recordedUp: bool, redisUp: bool, ts: seq<nat>, now: nat)
    requires recordedUp || !redisUp
    requires |ts| < Threshold(st)
    ensures AfterAssert(AfterFailures(st, AfterSuccess(c, recordedUp), redisUp, ts), redisUp, now).Success?
  {
    FewFailuresAreTolerated(st, AfterSuccess(c, recordedUp), redisUp, ts, now);
  }

  // ---- the bound is exact ------------------------------------------------------------------------

  // One worker fails m times, then all n workers start, then all of them fail.
  function Probes(m: nat): seq<Event> {
    if m == 0 then [] else [Starts(0, 0), Fails(0, 0)] + Probes(m - 1)
  }

  function Rush(k: nat, n: nat): seq<Event>
    requires k <= n
    decreases n - k
  {
    if k == n then [] else [Starts(k, 0)] + Rush(k + 1, n)
  }

  function Collapse(k: nat, n: nat): seq<Event>
    requires k <= n
    decreases n - k
  {
    if k == n then [] else [Fails(k, 0)] + Collapse(k + 1, n)
  }

  predicate Quiet(redisUp: bool, c: Circuit, seen: nat) {
    if redisUp then Read(c.open, 0) == 0 && Read(c.counter, 0) == seen
    else c.openedUntil == 0 && c.failures == seen
  }

  lemma {:induction false} ProbesPass(st: Settings, redisUp: bool, n: nat, w: World, seen: nat, m: nat)
    requires n > 0 && seen + m < Threshold(st)
    requires w.inFlight == {} && Quiet(redisUp, w.circuit, seen)
    ensures Legal(st, redisUp, n, w, Probes(m)) && Failures(Probes(m)) == m
    ensures var v := Run(st, redisUp, w, Probes(m)); v.inFlight == {} && Quiet(redisUp, v.circuit, seen + m)
    decreases m
  {
    if m > 0 {
      var es := Probes(m);
      var started := Next(st, redisUp, w, es[0]);
      var failed := Next(st, redisUp, started, es[1]);
      assert es[1..] == [Fails(0, 0)] + Probes(m - 1) && es[1..][1..] == Probes(m - 1);
      assert started.inFlight == {0} && failed.inFlight == {};
      ProbesPass(st, redisUp, n, failed, seen + 1, m - 1);
    }
  }

  lemma {:induction false} RushPasses(st: Settings, redisUp: bool, n: nat, w: World, seen: nat, k: nat)
    requires k <= n && Quiet(redisUp, w.circuit, seen)
    requires forall i :: i in w.inFlight <==> 0 <= i < k
    ensures Legal(st, redisUp, n, w, Rush(k, n)) && Failures(Rush(k, n)) == 0
    ensures forall i :: i in Run(st, redisUp, w, Rush(k, n)).inFlight <==> 0 <= i < n
    decreases n - k
  {
    if k < n {
      var v := Next(st, redisUp, w, Rush(k, n)[0]);
      RushPasses(st, redisUp, n, v, seen, k + 1);
    }
  }

  lemma {:induction false} CollapsePasses(st: Settings, redisUp: bool, n: nat, w: World, k: nat)
    requires k <= n && forall i :: k <= i < n ==> i in w.inFlight
    ensures Legal(st, redisUp, n, w, Collapse(k, n)) && Failures(Collapse(k, n)) == n - k
    decreases n - k
  {
    if k < n {
      CollapsePasses(st, redisUp, n, Next(st, redisUp, w, Collapse(k, n)[0]), k + 1);
    }
  }

  lemma {:induction false} FailuresAddUp(a: seq<Event>, b: seq<Event>)
    ensures Failures(a + b) == Failures(a) + Failures(b)
  {
    if a == [] {
      assert a + b == b;
    } else {
      assert (a + b)[1..] == a[1..] + b;
      FailuresAddUp(a[1..], b);
    }
  }

  predicate AtZero(es: seq<Event>) {
    forall i :: 0 <= i < |es| ==> es[i].at == 0 && !es[i].Succeeds?
  }

  lemma {:induction false} ProbesAtZero(m: nat)
    ensures AtZero(Probes(m))
  {
    if m > 0 {
      ProbesAtZero(m - 1);
    }
  }

  lemma {:induction false} RushAtZero(k: nat, n: nat)
    requires k <= n
    ensures AtZero(Rush(k, n)) && AtZero(Collapse(k, n))
    decreases n - k
  {
    if k < n {
      RushAtZero(k + 1, n);
    }
  }

  /** The bound cannot be lowered: some run records exactly that many failures at one instant. */
  lemma BoundIsReached(st: Settings, redisUp: bool, n: nat) returns (es: seq<Event>)
    requires n > 0
    ensures Legal(st, redisUp, n, IDLE, es) && AtZero(es)
    ensures Failures(es) == Threshold(st) + n - 1
  {
    var probes, rush, collapse := Probes(Threshold(st) - 1), Rush(0, n), Collapse(0, n);
    ProbesPass(st, redisUp, n, IDLE, 0, Threshold(st) - 1);
    var probed := Run(st, redisUp, IDLE, probes);
    RushPasses(st, redisUp, n, probed, Threshold(st) - 1, 0);
    CollapsePasses(st, redisUp, n, Run(st, redisUp, probed, rush), 0);
    LegalConcat(st, redisUp, n, probed, rush, collapse);
    LegalConcat(st, redisUp, n, IDLE, probes, rush + collapse);
    FailuresAddUp(rush, collapse);
    FailuresAddUp(probes, rush + collapse);
    ProbesAtZero(Threshold(st) - 1);
    RushAtZero(0, n);
    es := probes + (rush + collapse);
  }
}

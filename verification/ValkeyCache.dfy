/** The process-wide client cache: one resolution at a time, a cooldown after a failed connect,
    and readers that never take the lock. `Cache` is the module state, `ValkeyCache` the functions
    that change it. `CacheProtocol` runs them in parallel, one atomic read or write at a time. */
module ClientCache {
  import opened Common

  // A client object, told apart by identity.
  type Client = nat

  datatype Cache = Cache(
    client: Option<Client>,
    resolved: bool,
    retryAfter: real,   // 0.0: no cooldown
    factory: bool)      // a custom factory is registered

  // What one resolution attempt meets.
  datatype Attempt = Attempt(
    factoryGives: Option<Client>,   // None: it raised or returned None
    redisInstalled: bool,
    urlSet: bool,
    connects: Option<Client>,       // None: from_url or ping raised
    cooldownSetting: Option<real>)  // None: unset, or not a number

  datatype Outcome = Found(client: Client) | Terminal | Failed(cooldown: real)

  /** `_retry_cooldown_s`: the setting, but never below a second; half a minute without one. */
  function Cooldown(setting: Option<real>): (c: real)
    ensures c >= 1.0
    ensures setting.None? ==> c == 30.0
    ensures setting.Some? ==> c >= setting.value && (c == setting.value || c == 1.0)
  {
    if setting.None? then 30.0 else if setting.value >= 1.0 then setting.value else 1.0
  }

  function OutcomeOf(factory: bool, a: Attempt): Outcome {
    if factory && a.factoryGives.Some? then Found(a.factoryGives.value)
    else if !a.redisInstalled || !a.urlSet then Terminal
    else if a.connects.Some? then Found(a.connects.value)
    else Failed(Cooldown(a.cooldownSetting))
  }

  predicate CoolingDown(retryAfter: real, now: real) {
    retryAfter != 0.0 && now < retryAfter
  }

  function Settle(c: Cache, outcome: Outcome, now: real): Cache {
    match outcome
    case Found(client) => c.(client := Some(client), resolved := true, retryAfter := 0.0)
    case Terminal => c.(client := None, resolved := true)
    case Failed(cooldown) => c.(client := None, retryAfter := now + cooldown)
  }

  /** One undisturbed call: the cache after it, and what it returns. */
  function Get(c: Cache, now: real, lockedNow: real, failNow: real, a: Attempt): (Cache, Option<Client>) {
    if c.resolved then (c, c.client)
    else if CoolingDown(c.retryAfter, now) || CoolingDown(c.retryAfter, lockedNow) then (c, None)
    else
      var settled := Settle(c, OutcomeOf(c.factory, a), failNow);
      (settled, settled.client)
  }

  class ValkeyCache {
    var client: Option<Client>
    var resolved: bool
    var retryAfter: real
    var factory: bool

    ghost function State(): Cache
      reads this
    {
      Cache(client, resolved, retryAfter, factory)
    }

    constructor ()
      ensures State() == Cache(None, false, 0.0, false)
    {
      client, resolved, retryAfter, factory := None, false, 0.0, false;
    }

    /** `register_valkey_factory`: a cooldown in force stays in force. */
    method RegisterFactory(registered: bool)
      modifies this
      ensures State() == old(State()).(factory := registered, client := None, resolved := false)
    {
      factory := registered;
      client := None;
      resolved := false;
    }

    /** `reset_valkey_cache` */
    method Reset()
      modifies this
      ensures State() == old(State()).(client := None, resolved := false, retryAfter := 0.0)
    {
      client := None;
      resolved := false;
      retryAfter := 0.0;
    }

    /** `get_valkey`, with the times its clock reads return and what the attempt would meet. */
    method GetValkey(now: real, lockedNow: real, failNow: real, a: Attempt) returns (result: Option<Client>)
      modifies this
      ensures (State(), result) == Get(old(State()), now, lockedNow, failNow, a)
    {
      if resolved {
        return client;
      }
      if retryAfter != 0.0 && now < retryAfter {
        return None;
      }
      // lock taken here
      if resolved {
        return client;
      }
      if retryAfter != 0.0 && lockedNow < retryAfter {
        return None;
      }
      result := None;
      if factory {
        result := a.factoryGives;
      }
      if result.None? {
        if !a.redisInstalled {
          client := None;
          resolved := true;
          return None;
        }
        if !a.urlSet {
          client := None;
          resolved := true;
          return None;
        }
        if a.connects.None? {
          var cooldown := Cooldown(a.cooldownSetting);
          client := None;
          retryAfter := failNow + cooldown;
          return None;
        }
        result := a.connects;
      }
      client := result;
      resolved := true;
      retryAfter := 0.0;
    }
  }

  // The call gets past the flag and the cooldown, so it makes an attempt.
  predicate Attempts(c: Cache, now: real, lockedNow: real) {
    !c.resolved && (c.retryAfter == 0.0 || (now >= c.retryAfter && lockedNow >= c.retryAfter))
  }

  // The client the attempt obtains: from the factory if it gives one, else by connecting.
  predicate Obtains(factory: bool, a: Attempt, client: Client) {
    || (factory && a.factoryGives == Some(client))
    || (!(factory && a.factoryGives.Some?) && a.redisInstalled && a.urlSet && a.connects == Some(client))
  }

  // Redis is there and configured, the factory gives nothing, and the connection fails.
  predicate FailsToConnect(a: Attempt) {
    a.redisInstalled && a.urlSet && a.factoryGives.None? && a.connects.None?
  }

  /** An attempt sets the flag exactly when it obtained a client, or when Redis or its URL is missing;
      the client it obtained, if any, is returned and cached. */
  lemma FlagSetIff(c: Cache, now: real, lockedNow: real, failNow: real, a: Attempt)
    requires Attempts(c, now, lockedNow)
    ensures var (c', result) := Get(c, now, lockedNow, failNow, a);
            && (c'.resolved <==>
                  (exists client: Client :: Obtains(c.factory, a, client)) || !a.redisInstalled || !a.urlSet)
            && (forall client: Client :: Obtains(c.factory, a, client) <==> result == Some(client))
            && c'.client == result && c'.factory == c.factory
  {
    if c.factory && a.factoryGives.Some? {
      assert Obtains(c.factory, a, a.factoryGives.value);
    } else if a.redisInstalled && a.urlSet && a.connects.Some? {
      assert Obtains(c.factory, a, a.connects.value);
    }
  }

  /** A failed connection is not final: the flag stays unset, the deadline lies at least a second
      ahead, until then calls return None without an attempt, and from then on a call that obtains a
      client returns it. */
  lemma FailedConnectIsRetried(c: Cache, now: real, lockedNow: real, failNow: real, a: Attempt)
    requires Attempts(c, now, lockedNow) && FailsToConnect(a)
    ensures var (c', result) := Get(c, now, lockedNow, failNow, a);
            && result.None? && !c'.resolved && c'.client.None?
            && c'.retryAfter == failNow + Cooldown(a.cooldownSetting) && c'.retryAfter >= failNow + 1.0
            && (forall t, u, v, b | c'.retryAfter > 0.0 && t < c'.retryAfter :: Get(c', t, u, v, b) == (c', None))
            && (forall t, u, v, b, client: Client |
                  t >= c'.retryAfter && u >= c'.retryAfter && Obtains(c.factory, b, client) ::
                  Get(c', t, u, v, b).1 == Some(client))
  {
  }

  /** A factory registered during a cooldown is not consulted until the cooldown ends, then it is. */
  lemma RegistrationWaitsForCooldown(c: Cache, now: real, a: Attempt, client: Client)
    requires a.factoryGives == Some(client)
    ensures var registered := c.(factory := true, client := None, resolved := false);
            Get(registered, now, now, now, a).1 == if CoolingDown(c.retryAfter, now) then None else Some(client)
  {
  }
}

/** `get_valkey` called by any number of threads. Every read or write of a module global and every
    lock operation is one step; the clock may advance between any two. */
module CacheProtocol {
  import opened ClientCache
  import opened Common
  import opened Runs

  type Thread = nat

  // Where a thread is in `get_valkey`.
  datatype Pc =
    | Idle
    | SawResolved                    // next: read the client, without the lock
    | SawUnresolved                  // next: read the deadline
    | SawDeadline                    // it was non-zero; next: read the clock
    | ReadClock(now: real)           // next: read the deadline again and compare
    | WantLock
    | HaveLock                       // next: re-check the flag
    | StillUnresolved                // next: re-check the cooldown
    | Resolving                      // next: the attempt comes back
    | WriteClient(outcome: Outcome)  // next: write the client
    | WriteFlag(outcome: Outcome)    // next: write the flag
    | WriteDeadline(outcome: Outcome)
    | Leave(result: Option<Client>)  // next: release the lock and return

  datatype State = State(
    cache: Cache,
    lock: Option<Thread>,
    clock: real,
    pcs: map<Thread, Pc>,
    // history
    attempts: seq<real>,
    published: seq<Client>,
    returned: seq<Option<Client>>)

  function PcOf(s: State, t: Thread): Pc {
    if t in s.pcs then s.pcs[t] else Idle
  }

  datatype Event = Tick(elapsed: real) | Step(t: Thread, a: Attempt)

  predicate Enabled(s: State, e: Event) {
    match e
    case Tick(elapsed) => elapsed >= 0.0
    case Step(t, _) => PcOf(s, t).WantLock? ==> s.lock.None?
  }

  function Goto(s: State, t: Thread, pc: Pc): State {
    s.(pcs := s.pcs[t := pc])
  }

  function Return(s: State, t: Thread, result: Option<Client>): State {
    Goto(s, t, Idle).(returned := s.returned + [result])
  }

  /** The next atomic step of thread `t`; `a` is what an attempt made now would meet. */
  function StepThread(s: State, t: Thread, a: Attempt): State {
    match PcOf(s, t)
    case Idle => Goto(s, t, if s.cache.resolved then SawResolved else SawUnresolved)
    case SawResolved => Return(s, t, s.cache.client)
    case SawUnresolved => Goto(s, t, if s.cache.retryAfter != 0.0 then SawDeadline else WantLock)
    case SawDeadline => Goto(s, t, ReadClock(s.clock))
    case ReadClock(now) => if now < s.cache.retryAfter then Return(s, t, None) else Goto(s, t, WantLock)
    case WantLock => Goto(s, t, HaveLock).(lock := Some(t))
    case HaveLock => Goto(s, t, if s.cache.resolved then Leave(s.cache.client) else StillUnresolved)
    case StillUnresolved =>
      if CoolingDown(s.cache.retryAfter, s.clock) then Goto(s, t, Leave(None))
      else Goto(s, t, Resolving).(attempts := s.attempts + [s.clock])
    case Resolving => Goto(s, t, WriteClient(OutcomeOf(s.cache.factory, a)))
    case WriteClient(Found(client)) =>
      Goto(s, t, WriteFlag(Found(client))).(cache := s.cache.(client := Some(client)),
                                            published := s.published + [client])
    case WriteClient(Terminal) => Goto(s, t, WriteFlag(Terminal)).(cache := s.cache.(client := None))
    case WriteClient(Failed(c)) => Goto(s, t, WriteDeadline(Failed(c))).(cache := s.cache.(client := None))
    case WriteFlag(Terminal) => Goto(s, t, Leave(None)).(cache := s.cache.(resolved := true))
    case WriteFlag(outcome) => Goto(s, t, WriteDeadline(outcome)).(cache := s.cache.(resolved := true))
    case WriteDeadline(Found(client)) => Goto(s, t, Leave(Some(client))).(cache := s.cache.(retryAfter := 0.0))
    case WriteDeadline(Failed(c)) => Goto(s, t, Leave(None)).(cache := s.cache.(retryAfter := s.clock + c))
    case WriteDeadline(Terminal) => Goto(s, t, Leave(None))
    case Leave(result) => Return(s, t, result).(lock := None)
  }

  function Next(s: State, e: Event): State {
    match e
    case Tick(elapsed) => s.(clock := s.clock + elapsed)
    case Step(t, a) => StepThread(s, t, a)
  }

  function Start(factory: bool, clock: real): State {
    State(Cache(None, false, 0.0, factory), None, clock, map[], [], [], [])
  }

  ghost predicate Moves(s: State, e: Event, t: State) {
    Enabled(s, e) && Next(s, e) == t
  }

  // ── Invariant ──────────────────────────────────────────────────────

  predicate InLock(pc: Pc) {
    pc.HaveLock? || BeforeFlag(pc) || pc.WriteDeadline? || pc.Leave?
  }

  // Holding the lock, having seen the cache unresolved, with the flag not written yet.
  predicate BeforeFlag(pc: Pc) {
    || pc.StillUnresolved? || pc.Resolving? || pc.WriteClient? || pc.WriteFlag?
    || (pc.WriteDeadline? && pc.outcome.Failed?)
  }

  // An attempt has started and its end is not recorded in the cache yet.
  predicate InAttempt(pc: Pc) {
    BeforeFlag(pc) && !pc.StillUnresolved?
  }

  // What a thread's position, and whether it holds the lock, say about what is shared.
  predicate PositionOk(pc: Pc, holds: bool, c: Cache, published: seq<Client>) {
    && (InLock(pc) <==> holds)
    && (BeforeFlag(pc) ==> !c.resolved)
    && (pc.WriteFlag? ==> !pc.outcome.Failed?)
    && (pc.WriteFlag? && pc.outcome.Found? ==> c.client == Some(pc.outcome.client) && published != [])
    && (BeforeFlag(pc) && !(pc.WriteFlag? && pc.outcome.Found?) ==> published == [])
    && (pc.WriteDeadline? ==> !pc.outcome.Terminal?)
    && (pc.WriteDeadline? && pc.outcome.Found? ==> c.resolved && c.client == Some(pc.outcome.client))
    && (pc.SawResolved? ==> c.resolved)
    && (pc.Leave? && pc.result.Some? ==> c.resolved && c.client == pc.result)
    && Cooled(pc)
  }

  predicate ThreadOk(s: State, t: Thread) {
    PositionOk(PcOf(s, t), s.lock == Some(t), s.cache, s.published)
  }

  predicate Writing(pc: Pc) {
    pc.WriteClient? || pc.WriteFlag? || pc.WriteDeadline?
  }

  // A failure in hand carries a cooldown of at least a second.
  predicate Cooled(pc: Pc) {
    Writing(pc) && pc.outcome.Failed? ==> pc.outcome.cooldown >= 1.0
  }

  ghost predicate SharedOk(s: State) {
    && s.clock >= 0.0
    && |s.published| <= 1
    && (s.published != [] ==> s.cache.client == Some(s.published[0]))
    && (s.published == [] ==> s.cache.client == None)
    && (!s.cache.resolved && s.published != [] ==> s.lock.Some? && PcOf(s, s.lock.value).WriteFlag?)
    && (forall i | 0 <= i < |s.returned| && s.returned[i].Some? :: s.cache.resolved && s.returned[i] == s.cache.client)
  }

  ghost predicate Inv(s: State) {
    SharedOk(s) && forall t :: ThreadOk(s, t)
  }

  lemma InvInit(factory: bool, clock: real)
    requires clock >= 0.0
    ensures Inv(Start(factory, clock))
  {
  }

  lemma ThreadKept(s: State, t: Thread, a: Attempt, u: Thread)
    requires Inv(s) && Enabled(s, Step(t, a))
    ensures ThreadOk(StepThread(s, t, a), u)
  {
    hide *;
    if u == t {
      OwnThreadKept(s, t, a);
    } else {
      OtherThreadKept(s, t, a, u);
    }
  }

  lemma OwnThreadKept(s: State, t: Thread, a: Attempt)
    requires Inv(s) && Enabled(s, Step(t, a))
    ensures ThreadOk(StepThread(s, t, a), t)
  {
    assert ThreadOk(s, t);
    hide Inv, SharedOk, ThreadOk, StepThread, Enabled;
    match PcOf(s, t)
    case WriteClient(_) => WriterKept(s, t, a);
    case WriteFlag(_) => WriterKept(s, t, a);
    case WriteDeadline(_) => WriterKept(s, t, a);
    case _ => ReaderKept(s, t, a);
  }

  lemma WriterKept(s: State, t: Thread, a: Attempt)
    requires SharedOk(s) && ThreadOk(s, t) && Writing(PcOf(s, t))
    ensures ThreadOk(StepThread(s, t, a), t)
  {
  }

  lemma ReaderKept(s: State, t: Thread, a: Attempt)
    requires SharedOk(s) && ThreadOk(s, t) && Enabled(s, Step(t, a)) && !Writing(PcOf(s, t))
    ensures ThreadOk(StepThread(s, t, a), t)
  {
  }

  lemma OtherThreadKept(s: State, t: Thread, a: Attempt, u: Thread)
    requires Inv(s) && Enabled(s, Step(t, a)) && u != t
    ensures ThreadOk(StepThread(s, t, a), u)
  {
    assert ThreadOk(s, t) && ThreadOk(s, u);
    var s' := StepThread(s, t, a);
    OthersStay(s, t, a, u);
    hide Inv, Enabled, StepThread;
    if InLock(PcOf(s, t)) {
      FlagIsKept(s, t, a);
      OutsideStaysOk(PcOf(s, u), s.cache, s.published, s'.cache, s'.published);
    } else {
      OutsideOnlyReads(s, t, a);
    }
  }

  lemma OthersStay(s: State, t: Thread, a: Attempt, u: Thread)
    requires u != t
    ensures PcOf(StepThread(s, t, a), u) == PcOf(s, u)
  {
    hide OutcomeOf;
  }

  // Only the holder of the lock writes the cache.
  lemma OutsideOnlyReads(s: State, t: Thread, a: Attempt)
    requires Enabled(s, Step(t, a)) && !InLock(PcOf(s, t))
    ensures var s' := StepThread(s, t, a);
            && s'.cache == s.cache && s'.published == s.published
            && (s'.lock == s.lock || (s.lock.None? && s'.lock == Some(t)))
  {
    hide OutcomeOf;
  }

  // And it keeps the flag and, once that is set, the client.
  lemma FlagIsKept(s: State, t: Thread, a: Attempt)
    requires ThreadOk(s, t) && InLock(PcOf(s, t))
    ensures var s' := StepThread(s, t, a);
            && (s'.lock == s.lock || s'.lock.None?)
            && (s.cache.resolved ==> s'.cache.resolved && s'.cache.client == s.cache.client)
  {
    hide OutcomeOf, Cooled;
  }

  lemma OutsideStaysOk(pc: Pc, c: Cache, published: seq<Client>, c': Cache, published': seq<Client>)
    requires PositionOk(pc, false, c, published)
    requires c.resolved ==> c'.resolved && c'.client == c.client
    ensures PositionOk(pc, false, c', published')
  {
    hide Cooled;
  }

  lemma SharedKept(s: State, t: Thread, a: Attempt)
    requires Inv(s) && Enabled(s, Step(t, a))
    ensures SharedOk(StepThread(s, t, a))
  {
    assert ThreadOk(s, t);
    if s.lock.Some? {
      assert ThreadOk(s, s.lock.value);
    }
  }

  lemma InvNext(s: State, e: Event)
    requires Inv(s) && Enabled(s, e)
    ensures Inv(Next(s, e))
  {
    match e
    case Tick(elapsed) =>
      forall u
        ensures ThreadOk(Next(s, e), u)
      {
        assert ThreadOk(s, u);
      }
    case Step(t, a) =>
      SharedKept(s, t, a);
      forall u
        ensures ThreadOk(Next(s, e), u)
      {
        ThreadKept(s, t, a, u);
      }
  }

  lemma InvAfter(s: State, events: seq<Event>, z: State)
    requires Inv(s) && Leads(Moves, s, events, z)
    ensures Inv(z)
  {
    hide Inv, Enabled, Next;
    forall u, e, v | Inv(u) && Moves(u, e, v)
      ensures Inv(v)
    {
      InvNext(u, e);
    }
    Preserved(Moves, Inv, s, events, z);
  }

  // ── Safety over every interleaving ─────────────────────────────────

  /** However the calls interleave, at most one client is ever published, and every call that
      returns a client returns that one. */
  lemma OneClient(factory: bool, clock: real, events: seq<Event>, z: State)
    requires clock >= 0.0 && Leads(Moves, Start(factory, clock), events, z)
    ensures |z.published| <= 1
    ensures forall i | 0 <= i < |z.returned| && z.returned[i].Some? ::
              z.published != [] && z.returned[i].value == z.published[0]
  {
    hide Leads;
    InvInit(factory, clock);
    InvAfter(Start(factory, clock), events, z);
  }

  // Once the flag is set, one step changes neither flag nor client, and a reader that saw the flag
  // returns that client.
  lemma FlagStep(s: State, e: Event)
    requires Inv(s) && Enabled(s, e) && s.cache.resolved
    ensures Next(s, e).cache.resolved && Next(s, e).cache.client == s.cache.client
    ensures e.Step? && PcOf(s, e.t).SawResolved? ==> Next(s, e).returned == s.returned + [s.cache.client]
  {
    if e.Step? {
      assert ThreadOk(s, e.t);
    }
  }

  /** The resolved flag announces the final client: from then on no schedule changes either. */
  lemma {:induction false} FlagIsFinal(s: State, events: seq<Event>, z: State)
    requires Inv(s) && Leads(Moves, s, events, z) && s.cache.resolved
    ensures z.cache.resolved && z.cache.client == s.cache.client
    decreases |events|
  {
    hide Inv, Enabled, Next;
    if events != [] {
      var t :| Moves(s, events[0], t) && Leads(Moves, t, events[1..], z);
      FlagStep(s, events[0]);
      InvNext(s, events[0]);
      FlagIsFinal(t, events[1..], z);
    }
  }

  /** A failed connect leaves the flag unset and the client empty, with a deadline ahead. */
  lemma FailureIsNotFinal(s: State, t: Thread, a: Attempt)
    requires Inv(s) && PcOf(s, t).WriteDeadline? && PcOf(s, t).outcome.Failed?
    ensures var s' := StepThread(s, t, a);
            !s'.cache.resolved && s'.cache.client == None && CoolingDown(s'.cache.retryAfter, s'.clock)
  {
    assert ThreadOk(s, t);
  }

  // No thread has seen or holds anything but failures to connect.
  ghost predicate OnlyFailures(s: State) {
    NothingFound(s) && forall t :: FailureInHand(PcOf(s, t))
  }

  ghost predicate NothingFound(s: State) {
    && !s.cache.resolved && s.cache.client.None?
    && forall i | 0 <= i < |s.returned| :: s.returned[i].None?
  }

  predicate FailureInHand(pc: Pc) {
    && !pc.SawResolved? && !pc.WriteFlag?
    && (Writing(pc) ==> pc.outcome.Failed?)
    && (pc.Leave? ==> pc.result.None?)
  }

  lemma OwnFailure(s: State, t: Thread, a: Attempt)
    requires NothingFound(s) && FailureInHand(PcOf(s, t)) && FailsToConnect(a)
    ensures FailureInHand(PcOf(StepThread(s, t, a), t))
  {
  }

  lemma NothingFoundNext(s: State, t: Thread, a: Attempt)
    requires NothingFound(s) && FailureInHand(PcOf(s, t))
    ensures NothingFound(StepThread(s, t, a))
  {
    hide OutcomeOf;
  }

  lemma FailureNext(s: State, e: Event)
    requires OnlyFailures(s) && Enabled(s, e) && (e.Step? ==> FailsToConnect(e.a))
    ensures OnlyFailures(Next(s, e))
  {
    hide FailureInHand, FailsToConnect, StepThread;
    if e.Step? {
      OwnFailure(s, e.t, e.a);
      NothingFoundNext(s, e.t, e.a);
    }
    forall u
      ensures FailureInHand(PcOf(Next(s, e), u))
    {
      assert FailureInHand(PcOf(s, u));
      if e.Step? && u != e.t {
        OthersStay(s, e.t, e.a, u);
      }
    }
  }

  lemma {:induction false} FailuresNext(s: State, events: seq<Event>, z: State)
    requires OnlyFailures(s) && Leads(Moves, s, events, z)
    requires forall i | 0 <= i < |events| && events[i].Step? :: FailsToConnect(events[i].a)
    ensures OnlyFailures(z)
    decreases |events|
  {
    hide OnlyFailures, Enabled, Next, FailsToConnect;
    if events != [] {
      var t :| Moves(s, events[0], t) && Leads(Moves, t, events[1..], z);
      FailureNext(s, events[0]);
      FailuresNext(t, events[1..], z);
    }
  }

  /** As long as every attempt fails to connect, no schedule of any number of threads sets the flag
      or returns a client: every call made after a cooldown tries again. */
  lemma FailuresNeverResolve(factory: bool, clock: real, events: seq<Event>, z: State)
    requires Leads(Moves, Start(factory, clock), events, z)
    requires forall i | 0 <= i < |events| && events[i].Step? :: FailsToConnect(events[i].a)
    ensures !z.cache.resolved && z.cache.client.None?
    ensures forall i | 0 <= i < |z.returned| :: z.returned[i].None?
  {
    hide Leads, FailsToConnect;
    FailuresNext(Start(factory, clock), events, z);
  }

  // ── Attempts are spaced by the cooldown ────────────────────────────

  // Every failure in the run has a cooldown of at least `c`.
  ghost predicate LeastCooldown(events: seq<Event>, c: real) {
    forall i | 0 <= i < |events| && events[i].Step? :: Cooldown(events[i].a.cooldownSetting) >= c
  }

  ghost predicate Spaced(times: seq<real>, c: real) {
    forall i | 0 <= i < |times| - 1 :: times[i + 1] >= times[i] + c
  }

  predicate Underway(s: State) {
    s.lock.Some? && InAttempt(PcOf(s, s.lock.value))
  }

  ghost predicate RetryInv(s: State, c: real) {
    && Spaced(s.attempts, c)
    && (forall i | 0 <= i < |s.attempts| :: 0.0 <= s.attempts[i] <= s.clock)
    && (s.attempts != [] && !s.cache.resolved && !Underway(s) ==>
          s.cache.retryAfter >= s.attempts[|s.attempts| - 1] + c)
    && (forall t :: PatientThread(s, t, c))
  }

  predicate PatientThread(s: State, t: Thread, c: real) {
    var pc := PcOf(s, t);
    (pc.WriteClient? || pc.WriteDeadline?) && pc.outcome.Failed? ==> pc.outcome.cooldown >= c
  }

  lemma PatientStep(s: State, t: Thread, a: Attempt, c: real, u: Thread)
    requires PatientThread(s, t, c) && PatientThread(s, u, c) && Inv(s)
    requires Cooldown(a.cooldownSetting) >= c
    ensures PatientThread(StepThread(s, t, a), u, c)
  {
    assert PcOf(s, t).WriteFlag? ==> !PcOf(s, t).outcome.Failed? by { assert ThreadOk(s, t); }
    hide Inv, Cooldown;
    if u != t {
      OthersStay(s, t, a, u);
      hide StepThread;
    }
  }

  lemma SpacingStep(s: State, t: Thread, a: Attempt, c: real)
    requires Inv(s) && RetryInv(s, c) && c >= 1.0
    ensures Spaced(StepThread(s, t, a).attempts, c)
    ensures forall i | 0 <= i < |StepThread(s, t, a).attempts| :: 0.0 <= StepThread(s, t, a).attempts[i] <= s.clock
  {
    assert ThreadOk(s, t);
  }

  lemma DeadlineStep(s: State, t: Thread, a: Attempt, c: real)
    requires Inv(s) && RetryInv(s, c) && c >= 1.0 && Enabled(s, Step(t, a))
    ensures var s' := StepThread(s, t, a);
            s'.attempts != [] && !s'.cache.resolved && !Underway(s') ==>
              s'.cache.retryAfter >= s'.attempts[|s'.attempts| - 1] + c
  {
    hide Spaced, SharedOk;
    assert ThreadOk(s, t) && PatientThread(s, t, c);
    if s.lock.Some? {
      assert ThreadOk(s, s.lock.value);
    }
  }

  lemma RetryStep(s: State, t: Thread, a: Attempt, c: real)
    requires Inv(s) && RetryInv(s, c) && c >= 1.0
    requires Enabled(s, Step(t, a)) && Cooldown(a.cooldownSetting) >= c
    ensures RetryInv(StepThread(s, t, a), c)
  {
    hide Spaced, SharedOk, ThreadOk;
    SpacingStep(s, t, a, c);
    DeadlineStep(s, t, a, c);
    forall u
      ensures PatientThread(StepThread(s, t, a), u, c)
    {
      PatientStep(s, t, a, c, u);
    }
  }

  lemma RetryNext(s: State, e: Event, c: real)
    requires Inv(s) && RetryInv(s, c) && c >= 1.0
    requires Enabled(s, e) && (e.Step? ==> Cooldown(e.a.cooldownSetting) >= c)
    ensures RetryInv(Next(s, e), c)
  {
    match e {
      case Tick(elapsed) =>
        forall u
          ensures PatientThread(Next(s, e), u, c)
        {
          assert PatientThread(s, u, c);
        }
      case Step(t, a) => RetryStep(s, t, a, c);
    }
  }

  lemma {:induction false} RetryAfterRun(s: State, events: seq<Event>, z: State, c: real)
    requires Inv(s) && RetryInv(s, c) && c >= 1.0
    requires Leads(Moves, s, events, z) && LeastCooldown(events, c)
    ensures RetryInv(z, c)
    decreases |events|
  {
    hide Inv, RetryInv, Enabled, Next, Cooldown;
    if events != [] {
      var t :| Moves(s, events[0], t) && Leads(Moves, t, events[1..], z);
      InvNext(s, events[0]);
      RetryNext(s, events[0], c);
      RetryAfterRun(t, events[1..], z, c);
    }
  }

  lemma {:induction false} SpacedGrows(times: seq<real>, c: real, n: nat)
    requires Spaced(times, c) && n < |times|
    ensures times[n] >= times[0] + n as real * c
  {
    if n > 0 {
      SpacedGrows(times, c, n - 1);
    }
  }

  /** Attempts start at least a cooldown apart, so at most 1 + floor(T / c) of them start within
      time T of the first, whatever the number of threads and however they interleave. */
  lemma RetryBound(factory: bool, clock: real, events: seq<Event>, z: State, c: real, span: real, n: nat)
    requires clock >= 0.0 && Leads(Moves, Start(factory, clock), events, z)
    requires c >= 1.0 && LeastCooldown(events, c) && span >= 0.0
    requires n < |z.attempts| && z.attempts[n] - z.attempts[0] <= span
    ensures n <= (span / c).Floor
    ensures Spaced(z.attempts, c)
  {
    hide Leads, LeastCooldown;
    InvInit(factory, clock);
    RetryAfterRun(Start(factory, clock), events, z, c);
    SpacedGrows(z.attempts, c, n);
    AtMost(n, c, span);
  }

  lemma AtMost(n: nat, c: real, span: real)
    requires c > 0.0 && n as real * c <= span
    ensures n <= (span / c).Floor
  {
    var q := span / c;
    assert span == q * c;
    Divide(q, n as real, c);
  }

  lemma Divide(x: real, y: real, c: real)
    requires c > 0.0 && x * c >= y * c
    ensures x >= y
  {
    assert (x - y) * c >= 0.0;
  }

  // ── One call alone ─────────────────────────────────────────────────

  function Solo(s: State, t: Thread, a: Attempt, n: nat): State
    decreases n
  {
    if n == 0 then s else Solo(StepThread(s, t, a), t, a, n - 1)
  }

  // What is left of a call from each position, nobody else moving.
  function Expected(s: State, t: Thread, a: Attempt): (Cache, Option<Client>) {
    var c := s.cache;
    var settled := Settle(c, OutcomeOf(c.factory, a), s.clock);
    var unresolved := if CoolingDown(c.retryAfter, s.clock) then (c, None) else (settled, settled.client);
    match PcOf(s, t)
    case Idle => Get(c, s.clock, s.clock, s.clock, a)
    case SawResolved => (c, c.client)
    case HaveLock => if c.resolved then (c, c.client) else unresolved
    case Resolving => (settled, settled.client)
    case WriteClient(outcome) => (Settle(c, outcome, s.clock), Settle(c, outcome, s.clock).client)
    case WriteFlag(outcome) => (Settle(c, outcome, s.clock), Settle(c, outcome, s.clock).client)
    case WriteDeadline(outcome) => (Settle(c, outcome, s.clock), Settle(c, outcome, s.clock).client)
    case Leave(result) => (c, result)
    case _ => unresolved
  }

  function StepsLeft(pc: Pc): nat {
    match pc
    case Idle => 13
    case SawResolved => 1
    case SawUnresolved => 12
    case SawDeadline => 11
    case ReadClock(_) => 10
    case WantLock => 9
    case HaveLock => 8
    case StillUnresolved => 7
    case Resolving => 6
    case WriteClient(_) => 5
    case WriteFlag(_) => 4
    case WriteDeadline(_) => 3
    case Leave(_) => 2
  }

  predicate Alone(s: State, t: Thread) {
    && (s.lock.None? || s.lock == Some(t))
    && (PcOf(s, t).ReadClock? ==> PcOf(s, t).now == s.clock && s.cache.retryAfter != 0.0)
    && (PcOf(s, t).SawDeadline? ==> s.cache.retryAfter != 0.0)
    && (PcOf(s, t).SawUnresolved? || PcOf(s, t).SawDeadline? || PcOf(s, t).ReadClock? || PcOf(s, t).WantLock? ==>
        !s.cache.resolved)
  }

  // The call goes on.
  lemma SoloStays(s: State, t: Thread, a: Attempt)
    requires Inv(s) && Alone(s, t) && Enabled(s, Step(t, a)) && !PcOf(StepThread(s, t, a), t).Idle?
    ensures var s' := StepThread(s, t, a);
            && s'.returned == s.returned && s'.clock == s.clock
            && Alone(s', t) && Enabled(s', Step(t, a)) && StepsLeft(PcOf(s', t)) < StepsLeft(PcOf(s, t))
  {
    assert ThreadOk(s, t);
    hide Inv, Alone, Enabled, ThreadOk;
    SoloAlone(s, t, a);
    hide OutcomeOf;
  }

  lemma SoloAlone(s: State, t: Thread, a: Attempt)
    requires ThreadOk(s, t) && Alone(s, t) && Enabled(s, Step(t, a)) && !PcOf(StepThread(s, t, a), t).Idle?
    ensures Alone(StepThread(s, t, a), t) && Enabled(StepThread(s, t, a), Step(t, a))
  {
    hide OutcomeOf, Cooled;
  }

  lemma UnlockedExpects(s: State, t: Thread, a: Attempt)
    requires Alone(s, t) && Enabled(s, Step(t, a)) && !InLock(PcOf(s, t)) && !PcOf(StepThread(s, t, a), t).Idle?
    ensures Expected(StepThread(s, t, a), t, a) == Expected(s, t, a)
  {
    hide OutcomeOf, Enabled, Settle;
  }

  lemma LockedExpects(s: State, t: Thread, a: Attempt)
    requires Inv(s) && Alone(s, t) && Enabled(s, Step(t, a)) && InLock(PcOf(s, t))
    requires !PcOf(StepThread(s, t, a), t).Idle?
    ensures Expected(StepThread(s, t, a), t, a) == Expected(s, t, a)
  {
    assert ThreadOk(s, t);
    hide OutcomeOf, SharedOk, Enabled, Get, PositionOk, Settle;
    match PcOf(s, t)
    case WriteClient(_) => WritingExpects(s, t, a);
    case WriteFlag(_) => WritingExpects(s, t, a);
    case WriteDeadline(_) => WritingExpects(s, t, a);
    case _ =>
  }

  lemma WritingExpects(s: State, t: Thread, a: Attempt)
    requires ThreadOk(s, t) && SharedOk(s)
    requires Writing(PcOf(s, t))
    ensures Expected(StepThread(s, t, a), t, a) == Expected(s, t, a)
  {
    hide OutcomeOf, Get, Cooled;
  }

  lemma SoloExpects(s: State, t: Thread, a: Attempt)
    requires Inv(s) && Alone(s, t) && Enabled(s, Step(t, a)) && !PcOf(StepThread(s, t, a), t).Idle?
    ensures Expected(StepThread(s, t, a), t, a) == Expected(s, t, a)
  {
    hide *;
    if InLock(PcOf(s, t)) {
      LockedExpects(s, t, a);
    } else {
      UnlockedExpects(s, t, a);
    }
  }

  // The call returns.
  lemma SoloReturns(s: State, t: Thread, a: Attempt)
    requires Inv(s) && Alone(s, t) && Enabled(s, Step(t, a)) && PcOf(StepThread(s, t, a), t).Idle?
    ensures var s' := StepThread(s, t, a);
            s'.returned == s.returned + [Expected(s, t, a).1] && s'.cache == Expected(s, t, a).0 && s'.lock.None?
  {
    assert ThreadOk(s, t);
    hide OutcomeOf;
  }

  lemma SoloStep(s: State, t: Thread, a: Attempt)
    requires Inv(s) && Alone(s, t) && Enabled(s, Step(t, a))
    ensures var s' := StepThread(s, t, a);
            if PcOf(s', t).Idle? then
              s'.returned == s.returned + [Expected(s, t, a).1] && s'.cache == Expected(s, t, a).0 && s'.lock.None?
            else
              && s'.returned == s.returned && Expected(s', t, a) == Expected(s, t, a) && s'.clock == s.clock
              && Alone(s', t) && Enabled(s', Step(t, a)) && StepsLeft(PcOf(s', t)) < StepsLeft(PcOf(s, t))
  {
    hide *;
    if PcOf(StepThread(s, t, a), t).Idle? {
      SoloReturns(s, t, a);
    } else {
      SoloStays(s, t, a);
      SoloExpects(s, t, a);
    }
  }

  /** Run without interference, the thread steps amount to the sequential `Get`: the protocol is
      the same function, cut where other threads can get in. */
  lemma {:induction false} SoloCallIsGet(s: State, t: Thread, a: Attempt) returns (n: nat)
    requires Inv(s) && Alone(s, t) && Enabled(s, Step(t, a))
    ensures var s' := Solo(s, t, a, n);
            && PcOf(s', t).Idle? && s'.lock.None?
            && s'.cache == Expected(s, t, a).0 && s'.returned == s.returned + [Expected(s, t, a).1]
    ensures PcOf(s, t).Idle? ==> Expected(s, t, a) == Get(s.cache, s.clock, s.clock, s.clock, a)
    decreases StepsLeft(PcOf(s, t))
  {
    SoloStep(s, t, a);
    var s' := StepThread(s, t, a);
    if PcOf(s', t).Idle? {
      assert Solo(s', t, a, 0) == s';
      n := 1;
    } else {
      InvNext(s, Step(t, a));
      n := SoloCallIsGet(s', t, a);
      n := n + 1;
    }
  }
}

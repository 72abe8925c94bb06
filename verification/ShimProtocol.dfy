/** Ticks of any number of shim workers in parallel, with crashes: each loop body is cut into
    its check, its emission and its record, and anything can happen in between. */
module ShimProtocol {
  import opened Common
  import opened ComplianceShim
  import opened Runs

  type Worker = nat

  // A tick's remaining work: its first pair is the one in hand.
  datatype Pc =
    | Idle
    | Checking(now: int, todo: seq<Visit>)   // next: look the first pair up
    | Emitting(now: int, todo: seq<Visit>)   // it had no row; next: emit
    | Recording(now: int, todo: seq<Visit>)  // emitted; next: insert the row

  datatype State = State(rows: seq<Notification>, log: seq<Emission>, pcs: map<Worker, Pc>)

  datatype Event =
    // The query read this incident table; its result is walked in this order.
    | StartTick(w: Worker, at: int, incidents: seq<Incident>, visits: seq<Visit>)
    | Check(w: Worker)
    | Emit(w: Worker, raises: bool)
    | RecordRow(w: Worker, fails: bool, queued: nat)
    | Crash(w: Worker)

  function PcOf(s: State, w: Worker): Pc {
    if w in s.pcs then s.pcs[w] else Idle
  }

  predicate Busy(pc: Pc) {
    !pc.Idle? && pc.todo != [] && pc.todo[0].regimes != []
  }

  function FirstIncident(pc: Pc): Incident
    requires Busy(pc)
  {
    pc.todo[0].incident
  }

  function FirstRegime(pc: Pc): Regime
    requires Busy(pc)
  {
    pc.todo[0].regimes[0]
  }

  /** A tick may start on exactly the work the query gives it: the scanned incidents in order, the
      applicable regimes of each in some order. */
  ghost predicate Enabled(s: State, e: Event) {
    match e
    case StartTick(w, at, incidents, visits) => PcOf(s, w).Idle? && Ordered(visits, Scanned(incidents, at))
    case Check(w) => PcOf(s, w).Checking? && Busy(PcOf(s, w))
    case Emit(w, _) => PcOf(s, w).Emitting? && Busy(PcOf(s, w))
    case RecordRow(w, _, _) => PcOf(s, w).Recording? && Busy(PcOf(s, w))
    case Crash(w) => !PcOf(s, w).Idle?
  }

  // Incidents without a regime left are passed over.
  function Tidy(todo: seq<Visit>): (r: seq<Visit>)
    ensures r == [] || r[0].regimes != []
  {
    if todo != [] && todo[0].regimes == [] then Tidy(todo[1..]) else todo
  }

  function Resume(now: int, todo: seq<Visit>): Pc {
    if Tidy(todo) == [] then Idle else Checking(now, Tidy(todo))
  }

  function Notice(pc: Pc): Emission
    requires Busy(pc)
  {
    Emission(FirstIncident(pc).id, FirstRegime(pc), pc.now - FirstIncident(pc).detectedAt)
  }

  function Next(s: State, e: Event): State
    requires Enabled(s, e)
  {
    var pc := PcOf(s, e.w);
    match e
    case StartTick(w, now, _, visits) => s.(pcs := s.pcs[w := Resume(now, visits)])
    case Check(w) =>
      if Due(FirstIncident(pc), FirstRegime(pc), pc.now) && !Has(s.rows, FirstIncident(pc).id, FirstRegime(pc))
      then s.(pcs := s.pcs[w := Emitting(pc.now, pc.todo)])
      else s.(pcs := s.pcs[w := Resume(pc.now, Rest(pc.todo))])
    case Emit(w, raises) =>
      s.(log := s.log + [Notice(pc)],
         pcs := s.pcs[w := if raises then Resume(pc.now, pc.todo[1..]) else Recording(pc.now, pc.todo)])
    case RecordRow(w, fails, queued) =>
      s.(rows := if fails then s.rows else Record(s.rows, NewRow(FirstIncident(pc), FirstRegime(pc), queued)),
         pcs := s.pcs[w := Resume(pc.now, Rest(pc.todo))])
    case Crash(w) => s.(pcs := s.pcs[w := Idle])
  }

  const INITIAL := State([], [], map[])

  ghost predicate Step(s: State, e: Event, t: State) {
    Enabled(s, e) && Next(s, e) == t
  }

  // ── What every interleaving keeps ──────────────────────────────────

  ghost predicate WorkerOk(s: State, w: Worker) {
    var pc := PcOf(s, w);
    && (!pc.Idle? ==> Busy(pc))
    && (pc.Emitting? || pc.Recording? ==> Due(FirstIncident(pc), FirstRegime(pc), pc.now))
    && (pc.Recording? ==> Emitted(s.log, FirstIncident(pc).id, FirstRegime(pc)))
  }

  ghost predicate Inv(s: State) {
    UniqueRows(s.rows) && Justified(s.rows, s.log) && forall w :: WorkerOk(s, w)
  }

  lemma EmittedStays(log: seq<Emission>, e: Emission, incident: int, r: Regime)
    requires Emitted(log, incident, r)
    ensures Emitted(log + [e], incident, r)
  {
    var k :| 0 <= k < |log| && log[k].incident == incident && log[k].regime == r &&
             log[k].age >= r.WindowHours() * HOUR;
    assert (log + [e])[k] == log[k];
  }

  lemma BooksNext(s: State, e: Event)
    requires Inv(s) && Enabled(s, e)
    ensures UniqueRows(Next(s, e).rows) && Justified(Next(s, e).rows, Next(s, e).log)
  {
    assert WorkerOk(s, e.w);
    hide UniqueRows, Justified, Emitted, Has, Record, Ordered, Tidy, Due;
    var mine := PcOf(s, e.w);
    match e {
      case Emit(_, _) => EmitKeeps(s.rows, s.log, Notice(mine));
      case RecordRow(_, _, queued) =>
        RecordKeeps(s.rows, s.log, NewRow(FirstIncident(mine), FirstRegime(mine), queued));
      case _ =>
    }
  }

  lemma OwnWorkerNext(s: State, e: Event)
    requires WorkerOk(s, e.w) && Enabled(s, e)
    ensures WorkerOk(Next(s, e), e.w)
  {
    hide Emitted, Has, Record, Ordered, Tidy;
    var mine := PcOf(s, e.w);
    if e.Emit? {
      NoticeEmitted(s.log, Notice(mine), FirstRegime(mine));
    }
  }

  lemma NoticeEmitted(log: seq<Emission>, e: Emission, r: Regime)
    requires e.regime == r && e.age >= r.WindowHours() * HOUR
    ensures Emitted(log + [e], e.incident, r)
  {
    assert (log + [e])[|log|] == e;
  }

  lemma OtherWorkerNext(s: State, e: Event, u: Worker)
    requires WorkerOk(s, u) && Enabled(s, e) && u != e.w
    ensures WorkerOk(Next(s, e), u)
  {
    hide Emitted, Has, Record, Ordered, Tidy, Due;
    var pc := PcOf(s, u);
    if pc.Recording? && e.Emit? {
      EmittedStays(s.log, Notice(PcOf(s, e.w)), FirstIncident(pc).id, FirstRegime(pc));
    }
  }

  lemma InvNext(s: State, e: Event)
    requires Inv(s) && Enabled(s, e)
    ensures Inv(Next(s, e))
  {
    BooksNext(s, e);
    hide UniqueRows, Justified, WorkerOk, Enabled, Next;
    forall u
      ensures WorkerOk(Next(s, e), u)
    {
      if u == e.w {
        OwnWorkerNext(s, e);
      } else {
        OtherWorkerNext(s, e, u);
      }
    }
  }

  lemma InvInitial()
    ensures Inv(INITIAL)
  {
  }

  /** However ticks interleave and wherever workers crash: at most one row per (incident, regime),
      and each row follows an emission for its pair made at or past that regime's window. */
  lemma RowsUniqueAndJustified(events: seq<Event>, z: State)
    requires Leads(Step, INITIAL, events, z)
    ensures UniqueRows(z.rows) && Justified(z.rows, z.log)
  {
    InvInitial();
    forall s, e, t | Inv(s) && Step(s, e, t)
      ensures Inv(t)
    {
      hide Inv, Enabled, Next;
      InvNext(s, e);
    }
    Preserved(Step, Inv, INITIAL, events, z);
    hide UniqueRows, Justified, WorkerOk, Step, Leads;
  }

  // ── One worker alone ───────────────────────────────────────────────

  // What worker w does next when nobody interferes and failures follow the environment.
  function Turn(s: State, w: Worker, env: Environment): Event
    requires Busy(PcOf(s, w))
  {
    var pc := PcOf(s, w);
    var o := env(FirstIncident(pc).id, FirstRegime(pc));
    match pc
    case Emitting(_, _) => Emit(w, o.EmitRaises?)
    case Recording(_, _) => RecordRow(w, o.RecordFails?, if o.Sent? then o.queued else 0)
    case _ => Check(w)
  }

  ghost function Solo(s: State, w: Worker, env: Environment, n: nat): State
    decreases n
  {
    if n == 0 || !Busy(PcOf(s, w)) || !Enabled(s, Turn(s, w, env)) then s
    else Solo(Next(s, Turn(s, w, env)), w, env, n - 1)
  }

  // Where an undisturbed worker can be.
  ghost predicate Alone(s: State, w: Worker, env: Environment) {
    var pc := PcOf(s, w);
    && (!pc.Idle? ==> Busy(pc))
    && (pc.Emitting? || pc.Recording? ==>
          Due(FirstIncident(pc), FirstRegime(pc), pc.now) && !Has(s.rows, FirstIncident(pc).id, FirstRegime(pc)))
    && (pc.Recording? ==> !env(FirstIncident(pc).id, FirstRegime(pc)).EmitRaises?)
  }

  // The books once this work is done.
  function Finish(b: Books, todo: seq<Visit>, now: int, env: Environment): Books {
    AfterVisits(b, todo, now, env)
  }

  // The books once the worker is through with its tick.
  ghost function Expected(s: State, w: Worker, env: Environment): Books
    requires Alone(s, w, env)
  {
    var pc := PcOf(s, w);
    match pc
    case Idle => Books(s.rows, s.log)
    case Recording(now, todo) =>
      var i, r := FirstIncident(pc), FirstRegime(pc);
      var b := AfterPair(Books(s.rows, s.log), i, r, now, env(i.id, r));
      Finish(Books(b.rows, s.log), Rest(todo), now, env)
    case _ => Finish(Books(s.rows, s.log), pc.todo, pc.now, env)
  }

  function Pairs(todo: seq<Visit>): nat {
    if todo == [] then 0 else |todo[0].regimes| + Pairs(todo[1..])
  }

  function TurnsLeft(pc: Pc): nat {
    match pc
    case Idle => 0
    case Checking(_, todo) => 3 * Pairs(todo)
    case Emitting(_, todo) => if todo == [] then 0 else 3 * Pairs(todo) - if Pairs(todo) > 0 then 1 else 0
    case Recording(_, todo) => if todo == [] then 0 else 3 * Pairs(todo) - if Pairs(todo) > 0 then 2 else 0
  }

  lemma {:induction false} TidyChangesNothing(b: Books, todo: seq<Visit>, now: int, env: Environment)
    ensures AfterVisits(b, Tidy(todo), now, env) == AfterVisits(b, todo, now, env)
    ensures Pairs(Tidy(todo)) == Pairs(todo)
  {
    if todo != [] && todo[0].regimes == [] {
      TidyChangesNothing(b, todo[1..], now, env);
    }
  }

  lemma RestPairs(todo: seq<Visit>)
    requires todo != [] && todo[0].regimes != []
    ensures Pairs(Rest(todo)) == Pairs(todo) - 1 && Pairs(todo[1..]) < Pairs(todo)
  {
    assert Rest(todo)[1..] == todo[1..];
  }

  // What one turn of an undisturbed worker keeps.
  ghost predicate TurnTaken(s: State, w: Worker, env: Environment)
    requires Alone(s, w, env) && Busy(PcOf(s, w))
  {
    && Enabled(s, Turn(s, w, env))
    && (var s' := Next(s, Turn(s, w, env));
        && Alone(s', w, env) && Expected(s', w, env) == Expected(s, w, env)
        && TurnsLeft(PcOf(s', w)) < TurnsLeft(PcOf(s, w)))
  }

  // The work of a worker in hand, its first pair done.
  lemma FirstPairDone(b: Books, todo: seq<Visit>, now: int, env: Environment)
    requires todo != [] && todo[0].regimes != []
    ensures var i, r := todo[0].incident, todo[0].regimes[0];
            var o := env(i.id, r);
            var b' := AfterPair(b, i, r, now, o);
            Finish(b, todo, now, env) ==
            Finish(b', if Abandons(b, i, r, now, o) then Tidy(todo[1..]) else Tidy(Rest(todo)), now, env)
  {
    hide AfterPair, Abandons, Pairs, Tidy, Rest;
    var i, r := todo[0].incident, todo[0].regimes[0];
    var b' := AfterPair(b, i, r, now, env(i.id, r));
    TidyChangesNothing(b', todo[1..], now, env);
    TidyChangesNothing(b', Rest(todo), now, env);
  }

  lemma FewerPairs(todo: seq<Visit>)
    requires todo != [] && todo[0].regimes != []
    ensures Pairs(Tidy(Rest(todo))) < Pairs(todo) && Pairs(Tidy(todo[1..])) < Pairs(todo)
  {
    hide Pairs, Tidy, Rest;
    var env: Environment := (_, _) => EmitRaises;
    RestPairs(todo);
    TidyChangesNothing(Books([], []), todo[1..], 0, env);
    TidyChangesNothing(Books([], []), Rest(todo), 0, env);
  }

  lemma FinishTidied(b: Books, todo: seq<Visit>, now: int, env: Environment)
    ensures Finish(b, Tidy(todo), now, env) == Finish(b, todo, now, env)
    ensures Tidy(todo) == [] ==> Finish(b, todo, now, env) == b
  {
    TidyChangesNothing(b, todo, now, env);
    NoVisits(b, now, env);
  }

  // What a pair does to the books.
  lemma NothingToDo(b: Books, i: Incident, r: Regime, now: int, o: Outcome)
    requires !Due(i, r, now) || Has(b.rows, i.id, r)
    ensures AfterPair(b, i, r, now, o) == b && !Abandons(b, i, r, now, o)
  {
  }

  lemma DueAndMissing(b: Books, i: Incident, r: Regime, now: int, o: Outcome)
    requires Due(i, r, now) && !Has(b.rows, i.id, r)
    ensures AfterPair(b, i, r, now, o).log == b.log + [Emission(i.id, r, now - i.detectedAt)]
    ensures AfterPair(b, i, r, now, o).rows == if o.Sent? then Record(b.rows, NewRow(i, r, o.queued)) else b.rows
    ensures Abandons(b, i, r, now, o) <==> o.EmitRaises?
  {
  }

  lemma SoloCheck(s: State, w: Worker, env: Environment)
    requires Alone(s, w, env) && PcOf(s, w).Checking?
    ensures TurnTaken(s, w, env)
  {
    hide Finish, Due, Has, Pairs, Tidy, Ordered, Rest, AfterPair, Abandons;
    var pc := PcOf(s, w);
    var b, i, r := Books(s.rows, s.log), FirstIncident(pc), FirstRegime(pc);
    if !Due(i, r, pc.now) || Has(b.rows, i.id, r) {
      NothingToDo(b, i, r, pc.now, env(i.id, r));
    }
    FirstPairDone(b, pc.todo, pc.now, env);
    FewerPairs(pc.todo);
    FinishTidied(b, Rest(pc.todo), pc.now, env);
  }

  lemma SoloEmit(s: State, w: Worker, env: Environment)
    requires Alone(s, w, env) && PcOf(s, w).Emitting?
    ensures TurnTaken(s, w, env)
  {
    hide Finish, Due, Has, Pairs, Tidy, Ordered, Rest, AfterPair, Abandons, Record;
    var pc := PcOf(s, w);
    var b, i, r := Books(s.rows, s.log), FirstIncident(pc), FirstRegime(pc);
    var b' := AfterPair(b, i, r, pc.now, env(i.id, r));
    DueAndMissing(b, i, r, pc.now, env(i.id, r));
    DueAndMissing(Books(s.rows, b'.log), i, r, pc.now, env(i.id, r));
    FirstPairDone(b, pc.todo, pc.now, env);
    FewerPairs(pc.todo);
    FinishTidied(b', pc.todo[1..], pc.now, env);
    FinishTidied(b', Rest(pc.todo), pc.now, env);
  }

  lemma SoloRecord(s: State, w: Worker, env: Environment)
    requires Alone(s, w, env) && PcOf(s, w).Recording?
    ensures TurnTaken(s, w, env)
  {
    hide Finish, Due, Has, Pairs, Tidy, Ordered, Rest, AfterPair, Abandons, Record;
    var pc := PcOf(s, w);
    var b, i, r := Books(s.rows, s.log), FirstIncident(pc), FirstRegime(pc);
    var b' := AfterPair(b, i, r, pc.now, env(i.id, r));
    DueAndMissing(b, i, r, pc.now, env(i.id, r));
    FewerPairs(pc.todo);
    FinishTidied(Books(b'.rows, s.log), Rest(pc.todo), pc.now, env);
  }

  lemma SoloStep(s: State, w: Worker, env: Environment)
    requires Alone(s, w, env) && Busy(PcOf(s, w))
    ensures TurnTaken(s, w, env)
  {
    hide TurnTaken, Expected, Next, Alone;
    match PcOf(s, w) {
      case Checking(_, _) => SoloCheck(s, w, env);
      case Emitting(_, _) => SoloEmit(s, w, env);
      case Recording(_, _) => SoloRecord(s, w, env);
      case _ =>
    }
  }

  lemma {:induction false} SoloFinishes(s: State, w: Worker, env: Environment) returns (n: nat)
    requires Alone(s, w, env)
    ensures var s' := Solo(s, w, env, n);
            PcOf(s', w).Idle? && Books(s'.rows, s'.log) == Expected(s, w, env)
    decreases TurnsLeft(PcOf(s, w))
  {
    hide Expected, TurnsLeft, Next, Turn, Enabled;
    if PcOf(s, w).Idle? {
      n := 0;
      IdleExpected(s, w, env);
    } else {
      SoloStep(s, w, env);
      n := SoloFinishes(Next(s, Turn(s, w, env)), w, env);
      n := n + 1;
    }
  }

  lemma IdleExpected(s: State, w: Worker, env: Environment)
    requires PcOf(s, w).Idle?
    ensures Alone(s, w, env) && Expected(s, w, env) == Books(s.rows, s.log)
  {
  }

  /** Run without interference, the steps of a tick leave exactly the books `run_once` leaves, with
      the same order of work and whatever fails. */
  lemma SoloTickIsRunOnce(s: State, w: Worker, now: int, incidents: seq<Incident>, visits: seq<Visit>, env: Environment)
    returns (n: nat)
    requires Enabled(s, StartTick(w, now, incidents, visits))
    ensures var s' := Solo(Next(s, StartTick(w, now, incidents, visits)), w, env, n);
            && PcOf(s', w).Idle?
            && Books(s'.rows, s'.log) == AfterVisits(Books(s.rows, s.log), visits, now, env)
  {
    var started := Next(s, StartTick(w, now, incidents, visits));
    TidyChangesNothing(Books(s.rows, s.log), visits, now, env);
    NoVisits(Books(s.rows, s.log), now, env);
    n := SoloFinishes(started, w, env);
  }

  // ── Exactly when emissions cannot repeat ───────────────────────────

  // A failure: emit_event raising, the insert failing, a worker dying.
  predicate IsFailure(e: Event) {
    (e.Emit? && e.raises) || (e.RecordRow? && e.fails) || e.Crash?
  }

  // A deployment: how many workers there are, and whether anything ever fails.
  datatype Config = Config(workers: nat, failures: bool)

  // What the deployment can do.
  ghost predicate Allowed(cfg: Config, events: seq<Event>) {
    forall k | 0 <= k < |events| :: events[k].w < cfg.workers && (IsFailure(events[k]) ==> cfg.failures)
  }

  ghost predicate Reaches(cfg: Config, events: seq<Event>, z: State) {
    Allowed(cfg, events) && Leads(Step, INITIAL, events, z)
  }

  // The pair has been emitted by the worker and is about to be recorded.
  predicate AboutToRecord(s: State, incident: int, r: Regime) {
    var pc := PcOf(s, 0);
    pc.Recording? && Busy(pc) && FirstIncident(pc).id == incident && FirstRegime(pc) == r
  }

  ghost predicate OncePair(s: State, incident: int, r: Regime) {
    Emissions(s.log, incident, r) == (if Has(s.rows, incident, r) || AboutToRecord(s, incident, r) then 1 else 0)
  }

  ghost predicate OnceInv(s: State) {
    && (forall i, r :: OncePair(s, i, r))
    && (var pc := PcOf(s, 0); pc.Emitting? || pc.Recording? ==>
          Busy(pc) && !Has(s.rows, FirstIncident(pc).id, FirstRegime(pc)))
  }

  lemma OnceNext(s: State, e: Event)
    requires OnceInv(s) && Enabled(s, e) && e.w == 0 && !IsFailure(e)
    ensures OnceInv(Next(s, e))
  {
    hide Emissions, Due, Tidy, Ordered;
    var s' := Next(s, e);
    var pc := PcOf(s, 0);
    forall i, r
      ensures OncePair(s', i, r)
    {
      assert OncePair(s, i, r);
      match e {
        case Emit(_, _) => EmissionsAppend(s.log, Notice(pc), i, r);
        case RecordRow(_, _, queued) => HasAppend(s.rows, NewRow(FirstIncident(pc), FirstRegime(pc), queued), i, r);
        case _ =>
      }
    }
  }

  lemma {:induction false} OnceAfter(s: State, events: seq<Event>, z: State)
    requires OnceInv(s) && Leads(Step, s, events, z)
    requires forall k | 0 <= k < |events| :: events[k].w == 0 && !IsFailure(events[k])
    ensures OnceInv(z)
    decreases |events|
  {
    hide OnceInv, IsFailure, Enabled, Next;
    if events != [] {
      var t :| Step(s, events[0], t) && Leads(Step, t, events[1..], z);
      OnceNext(s, events[0]);
      OnceAfter(t, events[1..], z);
    }
  }

  ghost predicate NoRepeats(s: State) {
    forall i, r :: Emissions(s.log, i, r) <= 1
  }

  // A tick of some incident table whose first pair is due.
  datatype Case = Case(now: int, incidents: seq<Incident>, visits: seq<Visit>)

  ghost predicate FirstIsDue(c: Case) {
    && Ordered(c.visits, Scanned(c.incidents, c.now))
    && c.visits != [] && c.visits[0].regimes != []
    && Due(c.visits[0].incident, c.visits[0].regimes[0], c.now)
  }

  // Two emissions for one pair: the second worker checks before the first has recorded.
  function Race(c: Case): seq<Event> {
    var start0, start1 := StartTick(0, c.now, c.incidents, c.visits), StartTick(1, c.now, c.incidents, c.visits);
    [start0, start1, Check(0), Check(1), Emit(0, false), Emit(1, false), RecordRow(0, false, 1), RecordRow(1, false, 1)]
  }

  // Two emissions for one pair: the worker dies between emitting and recording, and ticks again.
  function Rerun(c: Case): seq<Event> {
    var start := StartTick(0, c.now, c.incidents, c.visits);
    [start, Check(0), Emit(0, false), Crash(0), start, Check(0), Emit(0, false)]
  }

  // The two workers' positions, and what has been recorded and sent.
  function Racing(rows: seq<Notification>, log: seq<Emission>, a: Pc, b: Pc): State {
    State(rows, log, map[0 := a, 1 := b])
  }

  ghost function TheNotice(c: Case): Emission
    requires FirstIsDue(c)
  {
    Notice(Checking(c.now, c.visits))
  }

  ghost function TheRow(c: Case): Notification
    requires FirstIsDue(c)
  {
    NewRow(c.visits[0].incident, c.visits[0].regimes[0], 1)
  }

  lemma TwoNotices(e: Emission)
    ensures Emissions([e, e], e.incident, e.regime) == 2
  {
    EmissionsAppend([], e, e.incident, e.regime);
    EmissionsAppend([e], e, e.incident, e.regime);
    assert [] + [e] == [e] && [e] + [e] == [e, e];
  }

  ghost function RaceEnd(c: Case): State
    requires FirstIsDue(c)
  {
    var on := Resume(c.now, Rest(c.visits));
    Racing([TheRow(c)], [TheNotice(c), TheNotice(c)], on, on)
  }

  lemma CaseIsBusy(c: Case)
    requires FirstIsDue(c)
    ensures c.visits != [] && c.visits[0].regimes != [] && Tidy(c.visits) == c.visits
  {
  }

  // Each step of a tick on its first pair.

  function At(s: State, w: Worker, pc: Pc): State {
    s.(pcs := s.pcs[w := pc])
  }

  lemma Starts(s: State, w: Worker, c: Case)
    requires FirstIsDue(c) && PcOf(s, w).Idle?
    ensures Step(s, StartTick(w, c.now, c.incidents, c.visits), At(s, w, Checking(c.now, c.visits)))
  {
    CaseIsBusy(c);
    hide Tidy, Ordered, Due, Scanned;
  }

  lemma Checks(s: State, w: Worker, c: Case)
    requires FirstIsDue(c) && PcOf(s, w) == Checking(c.now, c.visits)
    requires s.rows == []
    ensures Step(s, Check(w), At(s, w, Emitting(c.now, c.visits)))
  {
    assert !Has([], c.visits[0].incident.id, c.visits[0].regimes[0]);
    hide Tidy, Ordered, Due, Scanned, Has, Rest;
  }

  lemma Emits(s: State, w: Worker, c: Case)
    requires FirstIsDue(c) && PcOf(s, w) == Emitting(c.now, c.visits)
    ensures Step(s, Emit(w, false), At(s.(log := s.log + [TheNotice(c)]), w, Recording(c.now, c.visits)))
  {
    hide Tidy, Ordered, Due, Scanned, Has, Rest;
  }

  lemma Records(s: State, w: Worker, c: Case)
    requires FirstIsDue(c) && PcOf(s, w) == Recording(c.now, c.visits)
    ensures Step(s, RecordRow(w, false, 1), At(s.(rows := Record(s.rows, TheRow(c))), w, Resume(c.now, Rest(c.visits))))
  {
    hide Tidy, Ordered, Due, Scanned, Has, Rest, Record;
  }

  lemma RecordedOnce(n: Notification)
    ensures Record([], n) == [n] && Record([n], n) == [n]
  {
    HasAppend([], n, n.incident, n.regime);
  }

  lemma RacingAt(rows: seq<Notification>, log: seq<Emission>, a: Pc, b: Pc, pc: Pc)
    ensures At(Racing(rows, log, a, b), 0, pc) == Racing(rows, log, pc, b)
    ensures At(Racing(rows, log, a, b), 1, pc) == Racing(rows, log, a, pc)
  {
    assert map[0 := a, 1 := b][0 := pc] == map[0 := pc, 1 := b];
    assert map[0 := a, 1 := b][1 := pc] == map[0 := a, 1 := pc];
  }

  lemma RaceRecords(c: Case)
    requires FirstIsDue(c)
    ensures var d, n := Recording(c.now, c.visits), TheNotice(c);
            From(Step, Racing([], [n, n], d, d), Race(c), 6, RaceEnd(c))
  {
    assert c.visits != [] && c.visits[0].regimes != [];
    hide FirstIsDue, From, Step, TheNotice, TheRow, Resume, Rest, Record, At;
    var e, n, row, d, on := Race(c), TheNotice(c), TheRow(c), Recording(c.now, c.visits), Resume(c.now, Rest(c.visits));
    var s6, s7, z := Racing([], [n, n], d, d), Racing([row], [n, n], on, d), RaceEnd(c);
    RecordedOnce(row);
    Records(s6, 0, c);
    RacingAt([row], [n, n], d, d, on);
    Records(s7, 1, c);
    RacingAt([row], [n, n], on, d, on);
    Ends(Step, e, z);
    Before(Step, s7, z, e, 7, z);
    Before(Step, s6, s7, e, 6, z);
  }

  lemma RaceEmits(c: Case, z: State)
    requires FirstIsDue(c)
    requires var d, n := Recording(c.now, c.visits), TheNotice(c); From(Step, Racing([], [n, n], d, d), Race(c), 6, z)
    ensures var m := Emitting(c.now, c.visits); From(Step, Racing([], [], m, m), Race(c), 4, z)
  {
    hide FirstIsDue, From, Step, TheNotice, At;
    var e, n, m, d := Race(c), TheNotice(c), Emitting(c.now, c.visits), Recording(c.now, c.visits);
    var s4, s5, s6 := Racing([], [], m, m), Racing([], [n], d, m), Racing([], [n, n], d, d);
    assert [] + [n] == [n] && [n] + [n] == [n, n];
    Emits(s4, 0, c);
    RacingAt([], [n], m, m, d);
    Emits(s5, 1, c);
    RacingAt([], [n, n], d, m, d);
    Before(Step, s5, s6, e, 5, z);
    Before(Step, s4, s5, e, 4, z);
  }

  lemma RaceChecks(c: Case, z: State)
    requires FirstIsDue(c)
    requires var m := Emitting(c.now, c.visits); From(Step, Racing([], [], m, m), Race(c), 4, z)
    ensures var k := Checking(c.now, c.visits); From(Step, Racing([], [], k, k), Race(c), 2, z)
  {
    hide FirstIsDue, From, Step, At;
    var e, m, k := Race(c), Emitting(c.now, c.visits), Checking(c.now, c.visits);
    var s2, s3 := Racing([], [], k, k), Racing([], [], m, k);
    Checks(s2, 0, c);
    RacingAt([], [], k, k, m);
    Checks(s3, 1, c);
    RacingAt([], [], m, k, m);
    Before(Step, s3, Racing([], [], m, m), e, 3, z);
    Before(Step, s2, s3, e, 2, z);
  }

  lemma RaceStarts(c: Case, z: State)
    requires FirstIsDue(c)
    requires var k := Checking(c.now, c.visits); From(Step, Racing([], [], k, k), Race(c), 2, z)
    ensures From(Step, INITIAL, Race(c), 0, z)
  {
    hide FirstIsDue, From, Step;
    var e, k := Race(c), Checking(c.now, c.visits);
    var s1 := State([], [], map[0 := k]);
    Starts(INITIAL, 0, c);
    assert At(INITIAL, 0, k) == s1;
    Starts(s1, 1, c);
    assert At(s1, 1, k) == Racing([], [], k, k);
    Before(Step, s1, Racing([], [], k, k), e, 1, z);
    Before(Step, INITIAL, s1, e, 0, z);
  }

  lemma RaceAllowed(cfg: Config, c: Case)
    requires cfg.workers > 1
    ensures Allowed(cfg, Race(c))
  {
  }

  /** Whatever tick has a due pair first: two workers running it side by side emit that pair twice
      and record it once. */
  lemma RaceRepeats(c: Case)
    requires FirstIsDue(c)
    ensures var z := RaceEnd(c);
            && Leads(Step, INITIAL, Race(c), z)
            && z.rows == [TheRow(c)]
            && Emissions(z.log, c.visits[0].incident.id, c.visits[0].regimes[0]) == 2
  {
    hide From, FirstIsDue, Emissions, Leads;
    CaseIsBusy(c);
    RaceRecords(c);
    RaceEmits(c, RaceEnd(c));
    RaceChecks(c, RaceEnd(c));
    RaceStarts(c, RaceEnd(c));
    FromStart(Step, INITIAL, Race(c), RaceEnd(c));
    TwoNotices(TheNotice(c));
  }

  ghost function RerunEnd(c: Case): State
    requires FirstIsDue(c)
  {
    State([], [TheNotice(c), TheNotice(c)], map[0 := Recording(c.now, c.visits)])
  }

  lemma OnlyWorkerAt(s: State, pc: Pc)
    requires s.pcs.Keys <= {0}
    ensures At(s, 0, pc) == State(s.rows, s.log, map[0 := pc])
  {
    assert s.pcs[0 := pc] == map[0 := pc];
  }

  // A whole tick of the only worker, up to its first emission.
  lemma TickEmits(c: Case, s: State, e: seq<Event>, k: nat, z: State)
    requires FirstIsDue(c) && k + 3 <= |e| && s.rows == [] && s.pcs.Keys <= {0} && PcOf(s, 0).Idle?
    requires e[k] == StartTick(0, c.now, c.incidents, c.visits) && e[k + 1] == Check(0) && e[k + 2] == Emit(0, false)
    requires From(Step, State([], s.log + [TheNotice(c)], map[0 := Recording(c.now, c.visits)]), e, k + 3, z)
    ensures From(Step, s, e, k, z)
  {
    assert c.visits != [] && c.visits[0].regimes != [];
    hide FirstIsDue, From, Step, TheNotice, At;
    var s1 := State([], s.log, map[0 := Checking(c.now, c.visits)]);
    var s2 := State([], s.log, map[0 := Emitting(c.now, c.visits)]);
    var s3 := State([], s.log + [TheNotice(c)], map[0 := Recording(c.now, c.visits)]);
    Starts(s, 0, c);
    OnlyWorkerAt(s, Checking(c.now, c.visits));
    Checks(s1, 0, c);
    OnlyWorkerAt(s1, Emitting(c.now, c.visits));
    Emits(s2, 0, c);
    OnlyWorkerAt(s2.(log := s3.log), Recording(c.now, c.visits));
    Before(Step, s2, s3, e, k + 2, z);
    Before(Step, s1, s2, e, k + 1, z);
    Before(Step, s, s1, e, k, z);
  }

  lemma RerunLeads(c: Case)
    requires FirstIsDue(c)
    ensures From(Step, INITIAL, Rerun(c), 0, RerunEnd(c))
  {
    hide FirstIsDue, From, TheNotice, Ordered, Due, Rest, Tidy;
    var e, n, z := Rerun(c), TheNotice(c), RerunEnd(c);
    var s3, s4 := State([], [n], map[0 := Recording(c.now, c.visits)]), State([], [n], map[0 := Idle]);
    assert [] + [n] == [n] && [n] + [n] == [n, n];
    Ends(Step, e, z);
    TickEmits(c, s4, e, 4, z);
    Before(Step, s3, s4, e, 3, z);
    TickEmits(c, INITIAL, e, 0, z);
  }

  lemma RerunAllowed(cfg: Config, c: Case)
    requires cfg.workers == 1 && cfg.failures
    ensures Allowed(cfg, Rerun(c))
  {
  }

  /** And one worker that dies between emitting and recording emits it again on its next tick. */
  lemma RerunRepeats(c: Case)
    requires FirstIsDue(c)
    ensures Leads(Step, INITIAL, Rerun(c), RerunEnd(c))
    ensures Emissions(RerunEnd(c).log, c.visits[0].incident.id, c.visits[0].regimes[0]) == 2
  {
    hide From, FirstIsDue, Emissions, Leads;
    CaseIsBusy(c);
    RerunLeads(c);
    FromStart(Step, INITIAL, Rerun(c), RerunEnd(c));
    TwoNotices(TheNotice(c));
  }

  // Any due pair of a candidate can come first.
  lemma DueFirst(i: Incident, r: Regime, now: int) returns (c: Case)
    requires Candidate(i, now) && Applies(i, r) && Due(i, r, now)
    ensures FirstIsDue(c) && c.visits[0].incident == i && c.visits[0].regimes[0] == r
  {
    hide Candidate, Applicable, Applies, Due, Scanned, IsOrder;
    ScannedAlone(i, now);
    AppliesIsApplicable(i, r);
    var order := OrderFrom(Applicable(i), r);
    c := Case(now, [i], [Visit(i, order)]);
  }

  lemma AppliesIsApplicable(i: Incident, r: Regime)
    requires Applies(i, r)
    ensures r in Applicable(i)
  {
  }

  // Any element of a set can come first in an order of it.
  lemma OrderFrom(s: set<Regime>, first: Regime) returns (order: seq<Regime>)
    requires first in s
    ensures IsOrder(order, s) && order != [] && order[0] == first
  {
    var others := SomeOrder(s - {first});
    order := [first] + others;
  }

  lemma ScannedAlone(i: Incident, now: int)
    requires Candidate(i, now)
    ensures Scanned([i], now) == [i]
  {
    hide Candidate;
    assert [i][1..] == [];
    assert Candidates([i], now) == [i];
    assert ByAge([i]) == [i];
  }

  lemma OnceInitial()
    ensures OnceInv(INITIAL)
  {
  }

  // One worker and no failure, or no worker at all.
  lemma CarefulNeverRepeats(cfg: Config, events: seq<Event>, z: State)
    requires cfg.workers == 0 || (cfg.workers == 1 && !cfg.failures)
    requires Reaches(cfg, events, z)
    ensures NoRepeats(z)
  {
    hide Emissions, IsFailure, Leads;
    OnceInitial();
    OnceAfter(INITIAL, events, z);
    forall i, r
      ensures Emissions(z.log, i, r) <= 1
    {
      assert OncePair(z, i, r);
    }
  }

  lemma OthersRepeat(cfg: Config) returns (events: seq<Event>, z: State)
    requires !(cfg.workers == 0 || (cfg.workers == 1 && !cfg.failures))
    ensures Reaches(cfg, events, z) && !NoRepeats(z)
  {
    var c := SomeDuePair();
    hide FirstIsDue, Emissions, Leads, Allowed, Race, RaceEnd, Rerun, RerunEnd, TheRow;
    if cfg.workers > 1 {
      events, z := Race(c), RaceEnd(c);
      RaceRepeats(c);
      RaceAllowed(cfg, c);
    } else {
      events, z := Rerun(c), RerunEnd(c);
      RerunRepeats(c);
      RerunAllowed(cfg, c);
    }
    assert Emissions(z.log, c.visits[0].incident.id, c.visits[0].regimes[0]) == 2;
  }

  /** No pair is ever emitted twice exactly when there is at most one worker and nothing fails;
      the UNIQUE pair keeps rows single, not notifications. */
  lemma ExactlyOnceIff(cfg: Config)
    ensures (forall events, z | Reaches(cfg, events, z) :: NoRepeats(z)) <==>
            cfg.workers == 0 || (cfg.workers == 1 && !cfg.failures)
  {
    hide Reaches, NoRepeats;
    if cfg.workers == 0 || (cfg.workers == 1 && !cfg.failures) {
      forall events, z | Reaches(cfg, events, z)
        ensures NoRepeats(z)
      {
        CarefulNeverRepeats(cfg, events, z);
      }
    } else {
      var events, z := OthersRepeat(cfg);
    }
  }

  // ── Exactly when an acknowledged insert is a row ───────────────────

  // The calls of `_record_notification` that return True.
  function Acknowledged(events: seq<Event>): nat
    decreases |events|
  {
    if events == [] then 0
    else (if events[0].RecordRow? && !events[0].fails then 1 else 0) + Acknowledged(events[1..])
  }

  // The only worker has no row for the pair it is about to emit or record.
  ghost predicate Unrecorded(s: State) {
    var pc := PcOf(s, 0);
    pc.Emitting? || pc.Recording? ==> Busy(pc) && !Has(s.rows, FirstIncident(pc).id, FirstRegime(pc))
  }

  lemma {:induction false} EachIsARow(s: State, events: seq<Event>, z: State)
    requires Unrecorded(s) && Leads(Step, s, events, z) && forall k | 0 <= k < |events| :: events[k].w == 0
    ensures |z.rows| == |s.rows| + Acknowledged(events)
    decreases |events|
  {
    hide Due, Ordered, Tidy, Has;
    if events != [] {
      var t :| Step(s, events[0], t) && Leads(Step, t, events[1..], z);
      EachIsARow(t, events[1..], z);
    }
  }

  lemma UnrecordedInitial()
    ensures Unrecorded(INITIAL)
  {
  }

  lemma RaceAcknowledges(c: Case)
    ensures Acknowledged(Race(c)) == 2
  {
    var e := Race(c);
    assert Acknowledged(e[8..]) == 0;
    AckTail(e, 7);
    AckTail(e, 6);
    AckTail(e, 5);
    AckTail(e, 4);
    AckTail(e, 3);
    AckTail(e, 2);
    AckTail(e, 1);
    AckTail(e, 0);
    assert e[0..] == e;
  }

  lemma AckTail(e: seq<Event>, k: nat)
    requires k < |e|
    ensures Acknowledged(e[k..]) == (if e[k].RecordRow? && !e[k].fails then 1 else 0) + Acknowledged(e[k + 1..])
  {
    assert e[k..][1..] == e[k + 1..];
  }

  /** "True if a new row was created" holds on every run, with or without failures and crashes,
      exactly when there is at most one worker: as many acknowledged inserts as rows. */
  lemma AcknowledgedIsARowIff(cfg: Config)
    ensures (forall events, z | Reaches(cfg, events, z) :: Acknowledged(events) == |z.rows|) <==> cfg.workers <= 1
  {
    if cfg.workers <= 1 {
      forall events, z | Reaches(cfg, events, z)
        ensures Acknowledged(events) == |z.rows|
      {
        hide Leads, Unrecorded, Acknowledged;
        UnrecordedInitial();
        EachIsARow(INITIAL, events, z);
      }
    } else {
      var c := SomeDuePair();
      hide FirstIsDue, Leads, Emissions, Acknowledged, Allowed, Race, RaceEnd, TheRow;
      RaceRepeats(c);
      RaceAcknowledges(c);
      RaceAllowed(cfg, c);
      assert Reaches(cfg, Race(c), RaceEnd(c));
    }
  }

  // ── A finished tick has covered its work ───────────────────────────

  // The worker's own tick goes wrong, or it starts another.
  predicate OwnFault(e: Event, w: Worker) {
    e.w == w && (IsFailure(e) || e.StartTick?)
  }

  ghost predicate Waits(todo: seq<Visit>, i: Incident, r: Regime) {
    exists k :: 0 <= k < |todo| && todo[k].incident == i && r in todo[k].regimes
  }

  // A due pair of the tick has its row, or the worker has it still to do.
  ghost predicate Covered(s: State, w: Worker, now: int, i: Incident, r: Regime) {
    || Has(s.rows, i.id, r)
    || (!PcOf(s, w).Idle? && Busy(PcOf(s, w)) && PcOf(s, w).now == now && Waits(PcOf(s, w).todo, i, r))
  }

  lemma {:induction false} TidyWaits(todo: seq<Visit>, i: Incident, r: Regime)
    requires Waits(todo, i, r)
    ensures Waits(Tidy(todo), i, r)
  {
    var k :| 0 <= k < |todo| && todo[k].incident == i && r in todo[k].regimes;
    if todo[0].regimes == [] {
      assert todo[1..][k - 1] == todo[k];
      TidyWaits(todo[1..], i, r);
    }
  }

  lemma RestWaits(todo: seq<Visit>, i: Incident, r: Regime)
    requires todo != [] && todo[0].regimes != [] && Waits(todo, i, r)
    ensures (todo[0].incident == i && todo[0].regimes[0] == r) || Waits(Tidy(Rest(todo)), i, r)
  {
    var k :| 0 <= k < |todo| && todo[k].incident == i && r in todo[k].regimes;
    if !(todo[0].incident == i && todo[0].regimes[0] == r) {
      assert r in Rest(todo)[k].regimes;
      TidyWaits(Rest(todo), i, r);
    }
  }

  lemma HasStays(s: State, e: Event, incident: int, r: Regime)
    requires Enabled(s, e) && Has(s.rows, incident, r)
    ensures Has(Next(s, e).rows, incident, r)
  {
    hide Due, Ordered, Tidy;
    var k :| 0 <= k < |s.rows| && s.rows[k].incident == incident && s.rows[k].regime == r;
    assert Next(s, e).rows[k] == s.rows[k];
  }

  lemma CoveredNext(s: State, e: Event, w: Worker, now: int, i: Incident, r: Regime)
    requires Enabled(s, e) && !OwnFault(e, w) && Due(i, r, now) && Covered(s, w, now, i, r)
    ensures Covered(Next(s, e), w, now, i, r)
  {
    if Has(s.rows, i.id, r) {
      HasStays(s, e, i.id, r);
    } else if e.w == w {
      RestWaits(PcOf(s, w).todo, i, r);
      if Waits(Tidy(Rest(PcOf(s, w).todo)), i, r) {
        WaitsForSome(Tidy(Rest(PcOf(s, w).todo)), i, r);
      }
      OwnStepCovers(s, e, w, now, i, r);
    }
  }

  lemma WaitsForSome(todo: seq<Visit>, i: Incident, r: Regime)
    requires Waits(todo, i, r)
    ensures todo != []
  {
  }

  lemma OwnStepCovers(s: State, e: Event, w: Worker, now: int, i: Incident, r: Regime)
    requires Enabled(s, e) && !OwnFault(e, w) && e.w == w && Due(i, r, now)
    requires !Has(s.rows, i.id, r) && Covered(s, w, now, i, r)
    requires var todo := PcOf(s, w).todo;
             || (todo[0].incident == i && todo[0].regimes[0] == r)
             || (Waits(Tidy(Rest(todo)), i, r) && Tidy(Rest(todo)) != [])
    ensures Covered(Next(s, e), w, now, i, r)
  {
    hide Due, Ordered, Tidy, Waits, Has, Rest;
    var pc := PcOf(s, w);
    if e.RecordRow? {
      var n := NewRow(FirstIncident(pc), FirstRegime(pc), e.queued);
      HasAppend(s.rows, n, i.id, r);
      RecordHas(s.rows, n);
    }
  }

  lemma RecordHas(rows: seq<Notification>, n: Notification)
    ensures Has(Record(rows, n), n.incident, n.regime)
  {
    HasAppend(rows, n, n.incident, n.regime);
  }

  lemma {:induction false} CoveredAfter(s: State, run: seq<Event>, z: State, w: Worker, now: int, i: Incident,
                                        r: Regime)
    requires Leads(Step, s, run, z) && forall k | 0 <= k < |run| :: !OwnFault(run[k], w)
    requires Due(i, r, now) && Covered(s, w, now, i, r)
    ensures Covered(z, w, now, i, r)
    decreases |run|
  {
    hide Covered, OwnFault, Enabled, Next;
    if run != [] {
      var t :| Step(s, run[0], t) && Leads(Step, t, run[1..], z);
      CoveredNext(s, run[0], w, now, i, r);
      CoveredAfter(t, run[1..], z, w, now, i, r);
    }
  }

  /** Whatever the other workers do, fail or crash meanwhile: once a tick is over that met no failure
      of its own, every due pair of the incidents it scanned has a row. */
  lemma FinishedTickCovers(s: State, w: Worker, now: int, incidents: seq<Incident>, visits: seq<Visit>,
                           run: seq<Event>, z: State, i: Incident, r: Regime)
    requires Enabled(s, StartTick(w, now, incidents, visits))
    requires Leads(Step, Next(s, StartTick(w, now, incidents, visits)), run, z)
    requires forall k | 0 <= k < |run| :: !OwnFault(run[k], w)
    requires PcOf(z, w).Idle?
    requires i in Scanned(incidents, now) && Applies(i, r) && Due(i, r, now)
    ensures Has(z.rows, i.id, r)
  {
    hide Leads, Applies, Due, Has, Scanned, OwnFault, Enabled, Next;
    StartCovers(s, w, now, incidents, visits, i, r);
    CoveredAfter(Next(s, StartTick(w, now, incidents, visits)), run, z, w, now, i, r);
  }

  lemma StartCovers(s: State, w: Worker, now: int, incidents: seq<Incident>, visits: seq<Visit>, i: Incident, r: Regime)
    requires Enabled(s, StartTick(w, now, incidents, visits))
    requires i in Scanned(incidents, now) && Applies(i, r)
    ensures Covered(Next(s, StartTick(w, now, incidents, visits)), w, now, i, r)
  {
    AppliesIsApplicable(i, r);
    hide Applies, Applicable, Due, Has, Tidy, Scanned;
    var found := Scanned(incidents, now);
    var k :| 0 <= k < |found| && found[k] == i;
    assert visits[k].incident == i && r in visits[k].regimes;
    assert Waits(visits, i, r);
    TidyWaits(visits, i, r);
  }

  // An incident of a DORA policy one microsecond past its window.
  lemma SomeDuePair() returns (c: Case)
    ensures FirstIsDue(c)
  {
    var i := Incident(1, "t", 0, true, TagList(["dora"]));
    SmallestWindow();
    assert Lower("dora") == "dora";
    assert TagMatches(i.tags.tags[0], Dora);
    c := DueFirst(i, Dora, 24 * HOUR + 1);
  }
}

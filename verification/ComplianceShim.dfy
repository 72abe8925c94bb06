/** The breach-notification shim: one tick over the open incidents. */
module ComplianceShim {
  import opened Common

  // ── Regimes ────────────────────────────────────────────────────────

  datatype Regime = Gdpr | Nydfs500 | Dora | Hipaa {
    function Name(): string {
      match this
      case Gdpr => "gdpr"
      case Nydfs500 => "nydfs_500"
      case Dora => "dora"
      case Hipaa => "hipaa"
    }

    function WindowHours(): nat {
      match this
      case Gdpr => 72
      case Nydfs500 => 72
      case Dora => 24
      case Hipaa => 24 * 60
    }

    function Format(): string {
      match this
      case Gdpr => "edpb_breach"
      case Nydfs500 => "nydfs_breach"
      case Dora => "esma_dora"
      case Hipaa => "hhs_breach"
    }
  }

  const REGIMES: seq<Regime> := [Gdpr, Nydfs500, Dora, Hipaa]

  // Times are in microseconds.
  const HOUR := 3_600_000_000
  const LIMIT := 200

  lemma AllRegimes()
    ensures forall r: Regime :: r in REGIMES
  {
    assert REGIMES[0] == Gdpr && REGIMES[1] == Nydfs500 && REGIMES[2] == Dora && REGIMES[3] == Hipaa;
    forall r: Regime
      ensures r in REGIMES
    {
      match r
      case Gdpr =>
      case Nydfs500 =>
      case Dora =>
      case Hipaa =>
    }
  }

  function LeastWindow(rs: seq<Regime>): (m: nat)
    requires rs != []
    ensures forall r | r in rs :: m <= r.WindowHours()
    ensures exists r | r in rs :: m == r.WindowHours()
  {
    if |rs| == 1 then assert rs[0] in rs; rs[0].WindowHours()
    else
      var rest := LeastWindow(rs[1..]);
      assert rs == [rs[0]] + rs[1..];
      if rs[0].WindowHours() <= rest then rs[0].WindowHours() else rest
  }

  /** The smallest window in the matrix, in hours. */
  function MinWindow(): nat {
    LeastWindow(REGIMES)
  }

  // regulation_tags as read: null, a JSON value that is no list, or a list of texts.
  datatype Tags = NoTags | NotAList | TagList(tags: seq<string>)

  datatype Incident = Incident(id: int, tenant: string, detectedAt: int, open: bool, tags: Tags)

  function LowerChar(c: char): char {
    if 'A' <= c <= 'Z' then (c as int + 32) as char else c
  }

  function Lower(s: string): (r: string)
    ensures |r| == |s|
  {
    seq(|s|, i requires 0 <= i < |s| => LowerChar(s[i]))
  }

  /** The tag names the regime, or starts with its name and an underscore. */
  predicate TagMatches(tag: string, r: Regime) {
    Lower(tag) == r.Name() || r.Name() + "_" <= Lower(tag)
  }

  // The documented forms: the regime's name, or its name, an underscore and anything; in any case.
  ghost predicate Names(tag: string, r: Regime) {
    Lower(tag) == r.Name() || exists suffix :: Lower(tag) == r.Name() + "_" + suffix
  }

  lemma MatchesIffNames(tag: string, r: Regime)
    ensures TagMatches(tag, r) <==> Names(tag, r)
  {
    var start, t := r.Name() + "_", Lower(tag);
    if start <= t {
      assert t == start + t[|start|..];
    }
    if suffix :| t == start + suffix {
      assert t[..|start|] == start;
    }
  }

  /** A tag that goes on after the name with anything but an underscore does not match. */
  lemma OtherContinuation(tag: string, r: Regime, c: char, rest: string)
    requires Lower(tag) == r.Name() + [c] + rest && c != '_'
    ensures !TagMatches(tag, r)
  {
    assert Lower(tag)[|r.Name()|] == c;
    assert (r.Name() + "_")[|r.Name()|] == '_';
  }

  /** No tag belongs to two regimes. */
  lemma OneRegimePerTag(tag: string, r: Regime, q: Regime)
    requires TagMatches(tag, r) && TagMatches(tag, q)
    ensures r == q
  {
    var t := Lower(tag);
    assert t != "" && t[0] == r.Name()[0] && t[0] == q.Name()[0];
  }

  // The same ASCII letter but for its case.
  predicate SameLetter(c: char, d: char) {
    || c == d
    || ('A' <= c <= 'Z' && d as int == c as int + 32)
    || ('A' <= d <= 'Z' && c as int == d as int + 32)
  }

  /** The case of a tag makes no difference, and nothing else is forgiven. */
  lemma CaseIgnored(tag: string, other: string)
    ensures Lower(tag) == Lower(other) <==>
            |tag| == |other| && forall k | 0 <= k < |tag| :: SameLetter(tag[k], other[k])
    ensures Lower(tag) == Lower(other) ==> forall r :: TagMatches(tag, r) <==> TagMatches(other, r)
  {
    if Lower(tag) == Lower(other) {
      forall k | 0 <= k < |tag|
        ensures SameLetter(tag[k], other[k])
      {
        assert Lower(tag)[k] == Lower(other)[k];
      }
    }
  }

  ghost predicate Applies(i: Incident, r: Regime) {
    i.tags.TagList? && exists k :: 0 <= k < |i.tags.tags| && TagMatches(i.tags.tags[k], r)
  }

  ghost function Applicable(i: Incident): set<Regime> {
    set r: Regime | Applies(i, r)
  }

  /** At or past the regime's window. */
  predicate Due(i: Incident, r: Regime, now: int) {
    now - i.detectedAt >= r.WindowHours() * HOUR
  }

  // ── The candidate query ────────────────────────────────────────────

  /** Open, tagged, strictly older than the smallest window. */
  predicate Candidate(i: Incident, now: int) {
    i.open && i.detectedAt < now - MinWindow() * HOUR && !i.tags.NoTags?
  }

  function Candidates(incidents: seq<Incident>, now: int): (r: seq<Incident>)
    ensures forall i :: i in r <==> i in incidents && Candidate(i, now)
  {
    if incidents == [] then []
    else if Candidate(incidents[0], now) then [incidents[0]] + Candidates(incidents[1..], now)
    else Candidates(incidents[1..], now)
  }

  function InsertByAge(i: Incident, sorted: seq<Incident>): seq<Incident> {
    if sorted == [] || i.detectedAt <= sorted[0].detectedAt then [i] + sorted
    else [sorted[0]] + InsertByAge(i, sorted[1..])
  }

  function ByAge(incidents: seq<Incident>): seq<Incident> {
    if incidents == [] then [] else InsertByAge(incidents[0], ByAge(incidents[1..]))
  }

  /** ORDER BY created_at ASC LIMIT 200 */
  function Scanned(incidents: seq<Incident>, now: int): seq<Incident> {
    var sorted := ByAge(Candidates(incidents, now));
    if |sorted| <= LIMIT then sorted else sorted[..LIMIT]
  }

  // ── The notification table and the outbound log ────────────────────

  datatype Notification = Notification(tenant: string, incident: int, regime: Regime, format: string, destinations: nat)

  // One call of emit_event.
  datatype Emission = Emission(incident: int, regime: Regime, age: int)

  /** `_already_notified` */
  predicate Has(rows: seq<Notification>, incident: int, r: Regime) {
    exists k :: 0 <= k < |rows| && rows[k].incident == incident && rows[k].regime == r
  }

  function NewRow(i: Incident, r: Regime, queued: nat): Notification {
    Notification(i.tenant, i.id, r, r.Format(), queued)
  }

  /** INSERT ... ON CONFLICT (incident_id, regime) DO NOTHING */
  function Record(rows: seq<Notification>, n: Notification): seq<Notification> {
    if Has(rows, n.incident, n.regime) then rows else rows + [n]
  }

  ghost predicate UniqueRows(rows: seq<Notification>) {
    forall j, k | 0 <= j < k < |rows| :: rows[j].incident != rows[k].incident || rows[j].regime != rows[k].regime
  }

  // Every row follows an emission for its pair, made at or past the regime's window.
  ghost predicate Justified(rows: seq<Notification>, log: seq<Emission>) {
    forall k | 0 <= k < |rows| :: Emitted(log, rows[k].incident, rows[k].regime)
  }

  ghost predicate Emitted(log: seq<Emission>, incident: int, r: Regime) {
    exists k :: 0 <= k < |log| && log[k].incident == incident && log[k].regime == r &&
                log[k].age >= r.WindowHours() * HOUR
  }

  /** How many emissions a pair has had. */
  function Emissions(log: seq<Emission>, incident: int, r: Regime): nat {
    if log == [] then 0
    else
      Emissions(log[..|log| - 1], incident, r)
      + (if log[|log| - 1].incident == incident && log[|log| - 1].regime == r then 1 else 0)
  }

  lemma EmissionsAppend(log: seq<Emission>, e: Emission, incident: int, r: Regime)
    ensures Emissions(log + [e], incident, r) ==
            Emissions(log, incident, r) + (if e.incident == incident && e.regime == r then 1 else 0)
  {
    assert (log + [e])[..|log|] == log;
  }

  lemma HasAppend(rows: seq<Notification>, n: Notification, incident: int, r: Regime)
    ensures Has(rows + [n], incident, r) <==> Has(rows, incident, r) || (incident == n.incident && r == n.regime)
  {
    if Has(rows, incident, r) {
      var k :| 0 <= k < |rows| && rows[k].incident == incident && rows[k].regime == r;
      assert (rows + [n])[k] == rows[k];
    }
    assert (rows + [n])[|rows|] == n;
  }

  lemma RecordKeeps(rows: seq<Notification>, log: seq<Emission>, n: Notification)
    requires UniqueRows(rows) && Justified(rows, log) && Emitted(log, n.incident, n.regime)
    ensures UniqueRows(Record(rows, n)) && Justified(Record(rows, n), log)
    ensures forall i, r :: Has(Record(rows, n), i, r) <==> Has(rows, i, r) || (i == n.incident && r == n.regime)
  {
    var rows' := Record(rows, n);
    forall i, r
      ensures Has(rows', i, r) <==> Has(rows, i, r) || (i == n.incident && r == n.regime)
    {
      HasAppend(rows, n, i, r);
    }
  }

  lemma EmitKeeps(rows: seq<Notification>, log: seq<Emission>, e: Emission)
    requires Justified(rows, log)
    ensures Justified(rows, log + [e])
    ensures e.age >= e.regime.WindowHours() * HOUR ==> Emitted(log + [e], e.incident, e.regime)
  {
    forall k | 0 <= k < |rows|
      ensures Emitted(log + [e], rows[k].incident, rows[k].regime)
    {
      assert Emitted(log, rows[k].incident, rows[k].regime);
      var m :| 0 <= m < |log| && log[m].incident == rows[k].incident && log[m].regime == rows[k].regime
               && log[m].age >= rows[k].regime.WindowHours() * HOUR;
      assert (log + [e])[m] == log[m];
    }
    assert (log + [e])[|log|] == e;
  }

  // ── One tick ───────────────────────────────────────────────────────

  // What the environment does with one pair: emit_event returns how many destinations it queued
  // or raises, and the insert may fail.
  datatype Outcome = Sent(queued: nat) | EmitRaises | RecordFails(queued: nat)

  type Environment = (int, Regime) -> Outcome

  ghost predicate FailureFree(env: Environment) {
    forall i, r :: env(i, r).Sent?
  }

  datatype Summary = Summary(scanned: nat, regimesEvaluated: nat, emitted: nat, skipped: nat, errors: nat)

  // The regimes of an incident that are evaluated but not yet past their window.
  ghost function NotYetDue(i: Incident, now: int): set<Regime> {
    Waiting(i, now, Applicable(i))
  }

  ghost function Waiting(i: Incident, now: int, done: set<Regime>): set<Regime> {
    set r | r in done && !Due(i, r, now)
  }

  lemma WaitingNone(i: Incident, now: int)
    ensures Waiting(i, now, {}) == {}
  {
  }

  lemma WaitingOneMore(i: Incident, now: int, done: set<Regime>, r: Regime)
    requires r !in done
    ensures |done + {r}| == |done| + 1
    ensures |Waiting(i, now, done + {r})| == |Waiting(i, now, done)| + if Due(i, r, now) then 0 else 1
  {
    hide Due;
    if Due(i, r, now) {
      assert Waiting(i, now, done + {r}) == Waiting(i, now, done);
    } else {
      assert Waiting(i, now, done + {r}) == Waiting(i, now, done) + {r};
    }
  }

  ghost function NotYetDueCount(scanned: seq<Incident>, now: int): nat {
    if scanned == [] then 0
    else NotYetDueCount(scanned[..|scanned| - 1], now) + |NotYetDue(scanned[|scanned| - 1], now)|
  }

  // The pair is notified by a failure-free tick at `now` that scans these incidents.
  ghost predicate Notifies(scanned: seq<Incident>, now: int, incident: int, r: Regime) {
    exists k :: 0 <= k < |scanned| && scanned[k].id == incident && Applies(scanned[k], r) && Due(scanned[k], r, now)
  }

  ghost predicate DistinctIds(incidents: seq<Incident>) {
    forall j, k | 0 <= j < k < |incidents| :: incidents[j].id != incidents[k].id
  }

  // What a failure-free tick over `scanned` does to one pair.
  ghost predicate TickedPair(scanned: seq<Incident>, now: int, rows: seq<Notification>, log: seq<Emission>,
                             rows': seq<Notification>, log': seq<Emission>, incident: int, r: Regime) {
    && (Has(rows', incident, r) <==> Has(rows, incident, r) || Notifies(scanned, now, incident, r))
    && Emissions(log', incident, r) ==
       Emissions(log, incident, r) + (if Notifies(scanned, now, incident, r) && !Has(rows, incident, r) then 1 else 0)
  }

  // The same within one incident, some of its regimes handled.
  ghost predicate HandledPair(i: Incident, now: int, done: set<Regime>, rows: seq<Notification>, log: seq<Emission>,
                              rows': seq<Notification>, log': seq<Emission>, incident: int, r: Regime) {
    var notifies := incident == i.id && r in done && Due(i, r, now);
    && (Has(rows', incident, r) <==> Has(rows, incident, r) || notifies)
    && Emissions(log', incident, r) == Emissions(log, incident, r)
       + (if notifies && !Has(rows, incident, r) then 1 else 0)
  }

  /** The outbound log after the body of the regime loop for one pair. */
  function LogAfter(rows: seq<Notification>, log: seq<Emission>, i: Incident, r: Regime, now: int): (r': seq<Emission>)
    ensures log <= r'
  {
    if Due(i, r, now) && !Has(rows, i.id, r) then log + [Emission(i.id, r, now - i.detectedAt)] else log
  }

  /** The notification table after it. */
  function RowsAfter(rows: seq<Notification>, i: Incident, r: Regime, now: int, outcome: Outcome)
    : (r': seq<Notification>)
    ensures rows <= r'
  {
    if Due(i, r, now) && !Has(rows, i.id, r) && outcome.Sent? then rows + [NewRow(i, r, outcome.queued)] else rows
  }

  // ── A whole tick, whatever fails ───────────────────────────────────

  // An incident of the scan, its regimes in the order the loop takes them.
  datatype Visit = Visit(incident: Incident, regimes: seq<Regime>)

  // The notification table and everything sent so far.
  datatype Books = Books(rows: seq<Notification>, log: seq<Emission>)

  ghost predicate IsOrder(order: seq<Regime>, s: set<Regime>) {
    (forall r :: r in order <==> r in s) && forall j, k | 0 <= j < k < |order| :: order[j] != order[k]
  }

  /** The work of a tick: the scanned incidents in turn, the applicable regimes of each in some order. */
  ghost predicate Ordered(visits: seq<Visit>, scanned: seq<Incident>) {
    |visits| == |scanned| && forall k | 0 <= k < |visits| ::
      visits[k].incident == scanned[k] && IsOrder(visits[k].regimes, Applicable(scanned[k]))
  }

  function AfterPair(b: Books, i: Incident, r: Regime, now: int, outcome: Outcome): Books {
    Books(RowsAfter(b.rows, i, r, now, outcome), LogAfter(b.rows, b.log, i, r, now))
  }

  // An exception from emit_event leaves the regime loop.
  predicate Abandons(b: Books, i: Incident, r: Regime, now: int, outcome: Outcome) {
    Due(i, r, now) && !Has(b.rows, i.id, r) && outcome.EmitRaises?
  }

  // The work without its first pair.
  function Rest(todo: seq<Visit>): seq<Visit>
    requires todo != [] && todo[0].regimes != []
  {
    [Visit(todo[0].incident, todo[0].regimes[1..])] + todo[1..]
  }

  /** The books after the given work, pair by pair. */
  function AfterVisits(b: Books, todo: seq<Visit>, now: int, env: Environment): Books
    decreases |todo|, if todo == [] then 0 else |todo[0].regimes|
  {
    if todo == [] then b
    else if todo[0].regimes == [] then AfterVisits(b, todo[1..], now, env)
    else
      var i, r := todo[0].incident, todo[0].regimes[0];
      var o := env(i.id, r);
      AfterVisits(AfterPair(b, i, r, now, o), if Abandons(b, i, r, now, o) then todo[1..] else Rest(todo), now, env)
  }

  lemma NoVisits(b: Books, now: int, env: Environment)
    ensures AfterVisits(b, [], now, env) == b
  {
  }

  lemma {:induction false} VisitsConcat(b: Books, done: seq<Visit>, more: seq<Visit>, now: int, env: Environment)
    ensures AfterVisits(b, done + more, now, env) == AfterVisits(AfterVisits(b, done, now, env), more, now, env)
    decreases |done|, if done == [] then 0 else |done[0].regimes|
  {
    hide AfterPair, Abandons;
    if done == [] {
      assert done + more == more;
    } else if done[0].regimes == [] {
      assert (done + more)[1..] == done[1..] + more;
      VisitsConcat(b, done[1..], more, now, env);
    } else {
      var i, r := done[0].incident, done[0].regimes[0];
      var o := env(i.id, r);
      var left := if Abandons(b, i, r, now, o) then done[1..] else Rest(done);
      assert (done + more)[1..] == done[1..] + more;
      assert Rest(done + more) == Rest(done) + more;
      VisitsConcat(AfterPair(b, i, r, now, o), left, more, now, env);
    }
  }

  lemma OneMoreRegime(b: Books, i: Incident, regimes: seq<Regime>, now: int, env: Environment)
    requires regimes != []
    ensures var o := env(i.id, regimes[0]);
            var b' := AfterPair(b, i, regimes[0], now, o);
            AfterVisits(b, [Visit(i, regimes)], now, env) ==
            if Abandons(b, i, regimes[0], now, o) then b' else AfterVisits(b', [Visit(i, regimes[1..])], now, env)
  {
    hide AfterPair, Abandons;
    var todo := [Visit(i, regimes)];
    assert todo[1..] == [] && Rest(todo) == [Visit(i, regimes[1..])];
  }

  lemma NoMoreRegimes(b: Books, i: Incident, now: int, env: Environment)
    ensures AfterVisits(b, [Visit(i, [])], now, env) == b
  {
    assert [Visit(i, [])][1..] == [];
  }

  lemma HandledOneMore(i: Incident, now: int, done: set<Regime>, r: Regime, rows: seq<Notification>, log: seq<Emission>,
                       here: seq<Notification>, hereLog: seq<Emission>, outcome: Outcome)
    requires r !in done && outcome.Sent?
    requires forall id, q :: HandledPair(i, now, done, rows, log, here, hereLog, id, q)
    ensures forall id, q :: HandledPair(i, now, done + {r}, rows, log, RowsAfter(here, i, r, now, outcome),
                                        LogAfter(here, hereLog, i, r, now), id, q)
    ensures Has(here, i.id, r) <==> Has(rows, i.id, r)
  {
    assert HandledPair(i, now, done, rows, log, here, hereLog, i.id, r);
    forall id, q
      ensures HandledPair(i, now, done + {r}, rows, log, RowsAfter(here, i, r, now, outcome),
                          LogAfter(here, hereLog, i, r, now), id, q)
    {
      assert HandledPair(i, now, done, rows, log, here, hereLog, id, q);
      if Due(i, r, now) && !Has(here, i.id, r) {
        HasAppend(here, NewRow(i, r, outcome.queued), id, q);
        EmissionsAppend(hereLog, Emission(i.id, r, now - i.detectedAt), id, q);
      }
    }
  }

  lemma HandledNone(i: Incident, now: int, rows: seq<Notification>, log: seq<Emission>)
    ensures forall id, q :: HandledPair(i, now, {}, rows, log, rows, log, id, q)
  {
  }

  function Elements(regimes: seq<Regime>): set<Regime> {
    set r | r in regimes
  }

  // The rest of a failure-free visit, some regimes already handled.
  lemma {:induction false} HandledFrom(start: Books, here: Books, i: Incident, done: set<Regime>, regimes: seq<Regime>,
                                       all: set<Regime>, now: int, env: Environment, end: Books)
    requires all == done + Elements(regimes) && end == AfterVisits(here, [Visit(i, regimes)], now, env)
    requires FailureFree(env) && forall j, k | 0 <= j < k < |regimes| :: regimes[j] != regimes[k]
    requires forall r | r in regimes :: r !in done
    requires forall id, q :: HandledPair(i, now, done, start.rows, start.log, here.rows, here.log, id, q)
    ensures forall id, q :: HandledPair(i, now, all, start.rows, start.log, end.rows, end.log, id, q)
    decreases |regimes|
  {
    hide HandledPair, RowsAfter, LogAfter, AfterVisits, Due, Has;
    if regimes == [] {
      NoMoreRegimes(here, i, now, env);
      assert done + Elements(regimes) == done;
    } else {
      var r := regimes[0];
      OneMoreRegime(here, i, regimes, now, env);
      HandledOneMore(i, now, done, r, start.rows, start.log, here.rows, here.log, env(i.id, r));
      assert regimes == [r] + regimes[1..];
      assert done + {r} + Elements(regimes[1..]) == done + Elements(regimes);
      HandledFrom(start, AfterPair(here, i, r, now, env(i.id, r)), i, done + {r}, regimes[1..], all, now, env, end);
    }
  }

  lemma HandledAll(i: Incident, now: int, rows: seq<Notification>, log: seq<Emission>, rows': seq<Notification>,
                   log': seq<Emission>)
    requires forall id, q :: HandledPair(i, now, Applicable(i), rows, log, rows', log', id, q)
    ensures forall id, q :: TickedPair([i], now, rows, log, rows', log', id, q)
  {
    forall id, q
      ensures TickedPair([i], now, rows, log, rows', log', id, q)
    {
      assert HandledPair(i, now, Applicable(i), rows, log, rows', log', id, q);
      assert [i][0] == i;
      assert Notifies([i], now, id, q) <==> id == i.id && q in Applicable(i) && Due(i, q, now);
    }
  }

  /** A failure-free visit does to every pair what a tick should. */
  lemma VisitTicks(b: Books, i: Incident, order: seq<Regime>, now: int, env: Environment, end: Books)
    requires IsOrder(order, Applicable(i)) && end == AfterVisits(b, [Visit(i, order)], now, env)
    ensures FailureFree(env) ==> forall id, q :: TickedPair([i], now, b.rows, b.log, end.rows, end.log, id, q)
  {
    hide HandledPair, TickedPair, AfterVisits, Applies;
    if FailureFree(env) {
      HandledNone(i, now, b.rows, b.log);
      HandledFrom(b, b, i, {}, order, Applicable(i), now, env, end);
      HandledAll(i, now, b.rows, b.log, end.rows, end.log);
    }
  }

  lemma TickedNone(now: int, rows: seq<Notification>, log: seq<Emission>)
    ensures forall id, q :: TickedPair([], now, rows, log, rows, log, id, q)
  {
  }

  lemma TickedOneMore(scanned: seq<Incident>, i: Incident, upTo: seq<Incident>, now: int,
                      rows: seq<Notification>, log: seq<Emission>, here: seq<Notification>, hereLog: seq<Emission>,
                      rows': seq<Notification>, log': seq<Emission>)
    requires upTo == scanned + [i]
    requires forall id, q :: TickedPair(scanned, now, rows, log, here, hereLog, id, q)
    requires forall id, q :: TickedPair([i], now, here, hereLog, rows', log', id, q)
    ensures forall id, q :: TickedPair(upTo, now, rows, log, rows', log', id, q)
  {
    forall id, q
      ensures TickedPair(upTo, now, rows, log, rows', log', id, q)
    {
      assert TickedPair(scanned, now, rows, log, here, hereLog, id, q);
      assert TickedPair([i], now, here, hereLog, rows', log', id, q);
      NotifiesOneMore(scanned, i, now, id, q);
    }
  }

  /** So does a failure-free tick, whatever order it takes the regimes in. */
  lemma {:induction false} VisitsTick(b: Books, visits: seq<Visit>, scanned: seq<Incident>, now: int, env: Environment,
                                      end: Books)
    requires FailureFree(env) && Ordered(visits, scanned) && end == AfterVisits(b, visits, now, env)
    ensures forall id, q :: TickedPair(scanned, now, b.rows, b.log, end.rows, end.log, id, q)
    decreases |visits|
  {
    hide AfterVisits, TickedPair, IsOrder, Applicable;
    if visits == [] {
      NoVisits(b, now, env);
      TickedNone(now, b.rows, b.log);
    } else {
      var n := |visits| - 1;
      var i, order := scanned[n], visits[n].regimes;
      assert visits == visits[..n] + [Visit(i, order)] && scanned == scanned[..n] + [i];
      var here := AfterVisits(b, visits[..n], now, env);
      VisitsConcat(b, visits[..n], [Visit(i, order)], now, env);
      VisitsTick(b, visits[..n], scanned[..n], now, env, here);
      VisitTicks(here, i, order, now, env, end);
      TickedOneMore(scanned[..n], i, scanned, now, b.rows, b.log, here.rows, here.log, end.rows, end.log);
    }
  }

  lemma NotifiesOneMore(scanned: seq<Incident>, i: Incident, now: int, incident: int, r: Regime)
    ensures Notifies(scanned + [i], now, incident, r) <==>
            Notifies(scanned, now, incident, r) || Notifies([i], now, incident, r)
  {
    hide Applies, Due;
    var upTo := scanned + [i];
    if Notifies(upTo, now, incident, r) {
      var m :| 0 <= m < |upTo| && upTo[m].id == incident && Applies(upTo[m], r) && Due(upTo[m], r, now);
      if m < |scanned| {
        assert scanned[m] == upTo[m];
      } else {
        assert [i][0] == upTo[m];
      }
    }
    if Notifies(scanned, now, incident, r) {
      var m :| 0 <= m < |scanned| && scanned[m].id == incident && Applies(scanned[m], r) && Due(scanned[m], r, now);
      assert upTo[m] == scanned[m];
    }
    if Notifies([i], now, incident, r) {
      assert upTo[|scanned|] == i;
    }
  }

  // The regimes of the order's first k places.
  ghost predicate Walked(done: set<Regime>, order: seq<Regime>, k: nat) {
    k <= |order| && forall r :: r in done <==> r in order[..k]
  }

  lemma WalkedNone(order: seq<Regime>)
    ensures Walked({}, order, 0)
  {
  }

  lemma WalkedOneMore(done: set<Regime>, order: seq<Regime>, k: nat, s: set<Regime>)
    requires IsOrder(order, s) && k < |order| && Walked(done, order, k)
    ensures order[k] !in done && Walked(done + {order[k]}, order, k + 1)
  {
    assert order[..k + 1] == order[..k] + [order[k]];
  }

  lemma WalkedAll(done: set<Regime>, order: seq<Regime>, s: set<Regime>)
    requires IsOrder(order, s) && Walked(done, order, |order|)
    ensures done == s
  {
    assert order[..|order|] == order;
  }

  class Shim {
    var incidents: seq<Incident>
    var rows: seq<Notification>
    var log: seq<Emission>

    ghost predicate Valid()
      reads this
    {
      UniqueRows(rows) && Justified(rows, log)
    }

    constructor (incidents: seq<Incident>)
      ensures Valid() && this.incidents == incidents && rows == [] && log == []
    {
      this.incidents, rows, log := incidents, [], [];
    }

    /** The body of the regime loop for one pair. */
    method NotifyOne(i: Incident, r: Regime, now: int, outcome: Outcome)
      returns (emitted: nat, skipped: nat, errors: nat)
      requires Valid()
      modifies `rows, `log
      ensures Valid()
      ensures log == LogAfter(old(rows), old(log), i, r, now)
      ensures rows == RowsAfter(old(rows), i, r, now, outcome)
      ensures (emitted, skipped, errors) ==
                if !Due(i, r, now) then (0, 0, 0)
                else if old(Has(rows, i.id, r)) then (0, 1, 0)
                else if outcome.Sent? then (1, 0, 0)
                else (0, 0, 1)
      ensures |rows| == |old(rows)| + emitted && |log| == |old(log)| + emitted + errors
    {
      emitted, skipped, errors := 0, 0, 0;
      if now - i.detectedAt < r.WindowHours() * HOUR {
        return;
      }
      if Has(rows, i.id, r) {
        return 0, 1, 0;
      }
      var e := Emission(i.id, r, now - i.detectedAt);
      EmitKeeps(rows, log, e);
      log := log + [e];
      match outcome {
        case EmitRaises => errors := 1;
        case RecordFails(_) => errors := 1;
        case Sent(queued) =>
          RecordKeeps(rows, log, NewRow(i, r, queued));
          rows := Record(rows, NewRow(i, r, queued));
          emitted := 1;
      }
    }

    /** One incident: its applicable regimes in an arbitrary order. An exception from emit_event
        abandons the regimes of the incident that are still to come. */
    method NotifyIncident(i: Incident, now: int, env: Environment)
      returns (evaluated: nat, emitted: nat, skipped: nat, errors: nat, ghost order: seq<Regime>)
      requires Valid()
      modifies `rows, `log
      ensures Valid() && old(rows) <= rows && old(log) <= log
      ensures IsOrder(order, Applicable(i))
      ensures Books(rows, log) == AfterVisits(Books(old(rows), old(log)), [Visit(i, order)], now, env)
      ensures evaluated == |Applicable(i)|
      ensures emitted == |rows| - |old(rows)| && emitted + errors == |log| - |old(log)|
      ensures FailureFree(env) ==> errors == 0 && evaluated == emitted + skipped + |NotYetDue(i, now)|
      ensures FailureFree(env) ==> forall id, r :: TickedPair([i], now, old(rows), old(log), rows, log, id, r)
    {
      hide Has, Emissions, UniqueRows, Justified, HandledPair, TickedPair, RowsAfter, LogAfter, Applicable, Due,
        Applies, Waiting, AfterVisits, IsOrder, Walked;
      evaluated, emitted, skipped, errors := 0, 0, 0, 0;
      var applicable := ApplicableRegimes(i);
      evaluated := |applicable|;
      var regimes := InSomeOrder(applicable);
      order := regimes;
      var k, abandoned := 0, false;
      ghost var done: set<Regime> := {};
      WaitingNone(i, now);
      WalkedNone(regimes);
      ghost var books := Books(rows, log);
      assert regimes[0..] == regimes;
      while k < |regimes| && !abandoned
        invariant k <= |regimes| && Walked(done, regimes, k)
        invariant Valid() && old(rows) <= rows && old(log) <= log
        invariant AfterVisits(books, [Visit(i, regimes)], now, env) ==
                  if abandoned then Books(rows, log)
                  else AfterVisits(Books(rows, log), [Visit(i, regimes[k..])], now, env)
        invariant emitted == |rows| - |old(rows)| && emitted + errors == |log| - |old(log)|
        invariant FailureFree(env) ==> !abandoned && errors == 0
        invariant FailureFree(env) ==> |done| == emitted + skipped + |Waiting(i, now, done)|
        decreases |regimes| - k
      {
        var r := regimes[k];
        WalkedOneMore(done, regimes, k, applicable);
        assert regimes[k..][0] == r && regimes[k..][1..] == regimes[k + 1..];
        OneMoreRegime(Books(rows, log), i, regimes[k..], now, env);
        WaitingOneMore(i, now, done, r);
        var e, s, f := NotifyOne(i, r, now, env(i.id, r));
        k, done := k + 1, done + {r};
        emitted, skipped, errors := emitted + e, skipped + s, errors + f;
        abandoned := f > 0 && env(i.id, r).EmitRaises?;
      }
      if !abandoned {
        assert regimes[k..] == [];
        NoMoreRegimes(Books(rows, log), i, now, env);
      }
      if FailureFree(env) {
        WalkedAll(done, regimes, applicable);
      }
      VisitTicks(books, i, regimes, now, env, Books(rows, log));
    }

    /** `run_once`: whatever fails, the books are those after some order of the work; without
        failures, the effect on every pair and the tally are known. */
    method RunOnce(now: int, env: Environment) returns (summary: Summary, ghost visits: seq<Visit>)
      requires Valid()
      modifies `rows, `log
      ensures Valid() && old(rows) <= rows && old(log) <= log
      ensures Ordered(visits, Scanned(incidents, now))
      ensures Books(rows, log) == AfterVisits(Books(old(rows), old(log)), visits, now, env)
      ensures summary.scanned == |Scanned(incidents, now)|
      ensures summary.emitted == |rows| - |old(rows)| && summary.emitted + summary.errors == |log| - |old(log)|
      ensures FailureFree(env) ==>
                && summary.errors == 0
                && summary.regimesEvaluated == summary.emitted + summary.skipped
                   + NotYetDueCount(Scanned(incidents, now), now)
      ensures FailureFree(env) ==>
                forall id, r :: TickedPair(Scanned(incidents, now), now, old(rows), old(log), rows, log, id, r)
    {
      hide Has, Emissions, UniqueRows, Justified, TickedPair, Scanned, Applicable, AfterVisits, IsOrder;
      var found := Scanned(incidents, now);
      var evaluated: nat, emitted: nat, skipped: nat, errors: nat := 0, 0, 0, 0;
      visits := [];
      ghost var books := Books(rows, log);
      NoVisits(books, now, env);
      for k := 0 to |found|
        invariant Valid() && old(rows) <= rows && old(log) <= log
        invariant Ordered(visits, found[..k])
        invariant Books(rows, log) == AfterVisits(books, visits, now, env)
        invariant emitted == |rows| - |old(rows)| && emitted + errors == |log| - |old(log)|
        invariant FailureFree(env) ==> errors == 0
        invariant FailureFree(env) ==> evaluated == emitted + skipped + NotYetDueCount(found[..k], now)
      {
        var v, e, s, f, order := NotifyIncident(found[k], now, env);
        VisitsConcat(books, visits, [Visit(found[k], order)], now, env);
        visits := visits + [Visit(found[k], order)];
        evaluated, emitted, skipped, errors := evaluated + v, emitted + e, skipped + s, errors + f;
        assert found[..k + 1][..k] == found[..k];
      }
      assert found[..|found|] == found;
      if FailureFree(env) {
        VisitsTick(books, visits, found, now, env, Books(rows, log));
      }
      summary := Summary(|found|, evaluated, emitted, skipped, errors);
    }
  }

  // `for regime in applicable_regimes`: a set is walked in an arbitrary order.
  method InSomeOrder(s: set<Regime>) returns (order: seq<Regime>)
    ensures IsOrder(order, s)
  {
    order := [];
    var left := s;
    while left != {}
      invariant left <= s && IsOrder(order, s - left)
    {
      var r :| r in left;
      order, left := order + [r], left - {r};
    }
  }

  /** The nested tag and regime loops. */
  method ApplicableRegimes(i: Incident) returns (applicable: set<Regime>)
    ensures applicable == Applicable(i)
    ensures forall r :: r in applicable <==>
              i.tags.TagList? && exists k :: 0 <= k < |i.tags.tags| && Names(i.tags.tags[k], r)
  {
    NamedRegimes(i);
    applicable := {};
    if !i.tags.TagList? {
      return;
    }
    var tags := i.tags.tags;
    for k := 0 to |tags|
      invariant forall r :: r in applicable <==> exists j :: 0 <= j < k && TagMatches(tags[j], r)
    {
      for n := 0 to |REGIMES|
        invariant forall r :: r in applicable <==>
                    (exists j :: 0 <= j < k && TagMatches(tags[j], r)) || (r in REGIMES[..n] && TagMatches(tags[k], r))
      {
        assert REGIMES[..n + 1] == REGIMES[..n] + [REGIMES[n]];
        if TagMatches(tags[k], REGIMES[n]) {
          applicable := applicable + {REGIMES[n]};
        }
      }
      assert REGIMES[..|REGIMES|] == REGIMES;
      AllRegimes();
    }
  }

  lemma NamedRegimes(i: Incident)
    ensures forall r :: r in Applicable(i) <==>
              i.tags.TagList? && exists k :: 0 <= k < |i.tags.tags| && Names(i.tags.tags[k], r)
  {
    hide TagMatches, Names;
    forall r
      ensures r in Applicable(i) <==>
              i.tags.TagList? && exists k :: 0 <= k < |i.tags.tags| && Names(i.tags.tags[k], r)
    {
      if i.tags.TagList? {
        forall k | 0 <= k < |i.tags.tags|
          ensures TagMatches(i.tags.tags[k], r) <==> Names(i.tags.tags[k], r)
        {
          MatchesIffNames(i.tags.tags[k], r);
        }
      }
    }
  }

  // ── Which incidents a tick reaches ─────────────────────────────────

  ghost predicate Aged(s: seq<Incident>) {
    forall j, k | 0 <= j < k < |s| :: s[j].detectedAt <= s[k].detectedAt
  }

  // Incidents detected before `at`, and at or before it.
  function Older(s: seq<Incident>, at: int): nat {
    if s == [] then 0 else (if s[0].detectedAt < at then 1 else 0) + Older(s[1..], at)
  }

  function NotNewer(s: seq<Incident>, at: int): nat {
    if s == [] then 0 else (if s[0].detectedAt <= at then 1 else 0) + NotNewer(s[1..], at)
  }

  lemma {:induction false} InsertKeeps(i: Incident, s: seq<Incident>)
    ensures multiset(InsertByAge(i, s)) == multiset(s) + multiset{i}
  {
    if s != [] && i.detectedAt > s[0].detectedAt {
      InsertKeeps(i, s[1..]);
      assert s == [s[0]] + s[1..];
    }
  }

  lemma {:induction false} InsertAges(i: Incident, s: seq<Incident>)
    requires Aged(s)
    ensures Aged(InsertByAge(i, s))
  {
    if s != [] && i.detectedAt > s[0].detectedAt {
      InsertAges(i, s[1..]);
      InsertKeeps(i, s[1..]);
      var rest := InsertByAge(i, s[1..]);
      forall k | 0 <= k < |rest|
        ensures s[0].detectedAt <= rest[k].detectedAt
      {
        assert rest[k] in multiset(rest);
      }
    }
  }

  lemma {:induction false} InsertCounts(i: Incident, s: seq<Incident>, at: int)
    ensures Older(InsertByAge(i, s), at) == (if i.detectedAt < at then 1 else 0) + Older(s, at)
    ensures NotNewer(InsertByAge(i, s), at) == (if i.detectedAt <= at then 1 else 0) + NotNewer(s, at)
  {
    if s != [] && i.detectedAt > s[0].detectedAt {
      InsertCounts(i, s[1..], at);
    }
  }

  lemma {:induction false} SortAges(s: seq<Incident>, at: int)
    ensures Aged(ByAge(s)) && multiset(ByAge(s)) == multiset(s)
    ensures Older(ByAge(s), at) == Older(s, at) && NotNewer(ByAge(s), at) == NotNewer(s, at)
  {
    if s != [] {
      hide InsertByAge, Aged;
      SortAges(s[1..], at);
      InsertAges(s[0], ByAge(s[1..]));
      InsertKeeps(s[0], ByAge(s[1..]));
      InsertCounts(s[0], ByAge(s[1..]), at);
      assert multiset(s) == multiset{s[0]} + multiset(s[1..]) by { assert s == [s[0]] + s[1..]; }
    }
  }

  lemma {:induction false} PlaceByAge(s: seq<Incident>, k: nat)
    requires Aged(s) && k < |s|
    ensures Older(s, s[k].detectedAt) <= k < NotNewer(s, s[k].detectedAt)
  {
    if k > 0 {
      PlaceByAge(s[1..], k - 1);
    } else {
      NoneOlder(s[1..], s[0].detectedAt);
    }
  }

  lemma {:induction false} NoneOlder(s: seq<Incident>, at: int)
    requires forall j | 0 <= j < |s| :: at <= s[j].detectedAt
    ensures Older(s, at) == 0
  {
    if s != [] {
      NoneOlder(s[1..], at);
    }
  }

  /** A candidate is scanned when at most 200 candidates are as old or older, and is not when 200
      are strictly older, notified already or not. */
  lemma ScannedByAge(incidents: seq<Incident>, now: int, i: Incident)
    requires i in incidents && Candidate(i, now)
    ensures NotNewer(Candidates(incidents, now), i.detectedAt) <= 200 ==> i in Scanned(incidents, now)
    ensures Older(Candidates(incidents, now), i.detectedAt) >= 200 ==> i !in Scanned(incidents, now)
    ensures |Candidates(incidents, now)| <= 200 ==> i in Scanned(incidents, now)
  {
    hide Candidate;
    var cands := Candidates(incidents, now);
    var sorted := ByAge(cands);
    SortAges(cands, i.detectedAt);
    assert i in multiset(sorted);
    assert |sorted| == |multiset(sorted)| == |multiset(cands)| == |cands|;
    forall k | 0 <= k < |sorted| && sorted[k] == i
      ensures Older(cands, i.detectedAt) <= k < NotNewer(cands, i.detectedAt)
    {
      PlaceByAge(sorted, k);
    }
    var k :| 0 <= k < |sorted| && sorted[k] == i;
    if |sorted| > LIMIT && k < LIMIT {
      assert sorted[..LIMIT][k] == i;
    }
  }

  /** A failure-free tick with at most 200 candidates leaves a row for every open incident strictly
      older than the smallest window and every regime of its tags whose window has passed. */
  lemma TickComplete(incidents: seq<Incident>, now: int, rows: seq<Notification>, log: seq<Emission>,
                     rows': seq<Notification>, log': seq<Emission>, i: Incident, r: Regime)
    requires |Candidates(incidents, now)| <= LIMIT
    requires TickedPair(Scanned(incidents, now), now, rows, log, rows', log', i.id, r)
    requires i in incidents && i.open && now - i.detectedAt > MinWindow() * HOUR
    requires Applies(i, r) && Due(i, r, now)
    ensures Has(rows', i.id, r)
  {
    hide Has, Applies, Due, Scanned, Candidates, MinWindow;
    assert i.tags.TagList? by { AppliesHasTags(i, r); }
    ScannedByAge(incidents, now, i);
    var found := Scanned(incidents, now);
    var k :| 0 <= k < |found| && found[k] == i;
    assert Notifies(found, now, i.id, r);
  }

  lemma AppliesHasTags(i: Incident, r: Regime)
    requires Applies(i, r)
    ensures i.tags.TagList?
  {
  }

  lemma SmallestWindow()
    ensures MinWindow() == Dora.WindowHours()
    ensures forall r: Regime :: MinWindow() <= r.WindowHours()
  {
    AllRegimes();
    assert Dora in REGIMES;
  }

  /** With at most 200 candidates, a due pair of an open incident that has no row gets one from a
      failure-free tick exactly when the incident's age is not exactly the smallest window: there
      the prefilter is strict and the regime test is not. */
  lemma DuePairGetsRowIff(incidents: seq<Incident>, now: int, rows: seq<Notification>, log: seq<Emission>,
                          rows': seq<Notification>, log': seq<Emission>, i: Incident, r: Regime)
    requires DistinctIds(incidents) && |Candidates(incidents, now)| <= LIMIT
    requires TickedPair(Scanned(incidents, now), now, rows, log, rows', log', i.id, r)
    requires i in incidents && i.open && Applies(i, r) && Due(i, r, now) && !Has(rows, i.id, r)
    ensures Has(rows', i.id, r) <==> now - i.detectedAt != MinWindow() * HOUR
  {
    SmallestWindow();
    if now - i.detectedAt != MinWindow() * HOUR {
      TickComplete(incidents, now, rows, log, rows', log', i, r);
    } else {
      hide Has, Applies, Scanned, Candidates;
      ScannedAreListed(incidents, now);
      var found := Scanned(incidents, now);
      forall k | 0 <= k < |found|
        ensures found[k].id != i.id
      {
        assert found[k] in found;
        IdsApart(incidents, found[k], i);
      }
    }
  }

  lemma {:induction false} ScannedAreListed(incidents: seq<Incident>, now: int)
    ensures forall i | i in Scanned(incidents, now) :: i in incidents && Candidate(i, now)
  {
    hide Candidate;
    SortAges(Candidates(incidents, now), 0);
    forall i | i in Scanned(incidents, now)
      ensures i in incidents && Candidate(i, now)
    {
      assert i in ByAge(Candidates(incidents, now));
      assert i in multiset(Candidates(incidents, now));
    }
  }

  /** Starvation: while 200 older incidents stay open, notified or not, no tick gives the newer one a row. */
  lemma StarvedTick(incidents: seq<Incident>, now: int, rows: seq<Notification>, log: seq<Emission>,
                    rows': seq<Notification>, log': seq<Emission>, i: Incident, r: Regime)
    requires DistinctIds(incidents) && i in incidents && Candidate(i, now)
    requires Older(Candidates(incidents, now), i.detectedAt) >= LIMIT
    requires TickedPair(Scanned(incidents, now), now, rows, log, rows', log', i.id, r)
    ensures Has(rows', i.id, r) <==> Has(rows, i.id, r)
    ensures Emissions(log', i.id, r) == Emissions(log, i.id, r)
  {
    hide Has, Applies, Due, Scanned, Candidates, Candidate, Emissions, Older;
    ScannedByAge(incidents, now, i);
    ScannedAreListed(incidents, now);
    var found := Scanned(incidents, now);
    forall k | 0 <= k < |found|
      ensures found[k].id != i.id
    {
      assert found[k] in found;
      IdsApart(incidents, found[k], i);
    }
  }

  // The incident is closed, or of no policy that names the regime, or within the regime's window.
  ghost predicate NoDuty(i: Incident, r: Regime, now: int) {
    || !i.open || !i.tags.TagList? || now - i.detectedAt < r.WindowHours() * HOUR
    || forall k | 0 <= k < |i.tags.tags| :: !Names(i.tags.tags[k], r)
  }

  /** Then no failure-free tick sends or records anything for the pair. */
  lemma NothingWithoutDuty(incidents: seq<Incident>, now: int, rows: seq<Notification>, log: seq<Emission>,
                           rows': seq<Notification>, log': seq<Emission>, i: Incident, r: Regime)
    requires DistinctIds(incidents) && i in incidents && NoDuty(i, r, now)
    requires TickedPair(Scanned(incidents, now), now, rows, log, rows', log', i.id, r)
    ensures Has(rows', i.id, r) <==> Has(rows, i.id, r)
    ensures Emissions(log', i.id, r) == Emissions(log, i.id, r)
  {
    NamedRegimes(i);
    AppliesIsIn(i, r);
    hide Has, Names, Applies, Applicable, Scanned, Emissions, MinWindow;
    ScannedAreListed(incidents, now);
    var found := Scanned(incidents, now);
    forall k | 0 <= k < |found| && found[k].id == i.id
      ensures !(Applies(found[k], r) && Due(found[k], r, now))
    {
      assert found[k] in found;
      if found[k] != i {
        IdsApart(incidents, found[k], i);
      }
    }
  }

  lemma AppliesIsIn(i: Incident, r: Regime)
    ensures Applies(i, r) <==> r in Applicable(i)
  {
  }

  // The matrix of regimes, as published: name, hours, regulator format.
  predicate Published(name: string, hours: nat, format: string) {
    (name, hours, format) in {("gdpr", 72, "edpb_breach"), ("nydfs_500", 72, "nydfs_breach"),
                              ("dora", 24, "esma_dora"), ("hipaa", 1440, "hhs_breach")}
  }

  /** A tag with the name of a published regime, or with its name, an underscore and anything, in any
      case: once its hours are over, a failure-free tick over at most 200 candidates leaves a row for
      the incident and that regime, which has that format. Only at 24 hours sharp is it too early. */
  lemma PublishedDeadline(incidents: seq<Incident>, now: int, b: Books, end: Books, i: Incident, k: nat,
                          name: string, hours: nat, format: string, suffix: string) returns (r: Regime)
    requires |Candidates(incidents, now)| <= 200
    requires forall q :: TickedPair(Scanned(incidents, now), now, b.rows, b.log, end.rows, end.log, i.id, q)
    requires i in incidents && i.open && i.tags.TagList? && k < |i.tags.tags| && Published(name, hours, format)
    requires Lower(i.tags.tags[k]) == name || Lower(i.tags.tags[k]) == name + "_" + suffix
    requires now - i.detectedAt >= hours * 3_600_000_000 && now - i.detectedAt > 24 * 3_600_000_000
    ensures r.Name() == name && r.Format() == format && Has(end.rows, i.id, r)
  {
    r := if name == "gdpr" then Gdpr else if name == "nydfs_500" then Nydfs500 else if name == "dora" then Dora
      else Hipaa;
    assert r.Name() == name && r.Format() == format && r.WindowHours() == hours;
    assert Names(i.tags.tags[k], r);
    MatchesIffNames(i.tags.tags[k], r);
    SmallestWindow();
    hide Has, TagMatches, Names, Scanned, Candidates, MinWindow;
    TickComplete(incidents, now, b.rows, b.log, end.rows, end.log, i, r);
  }

  // The row names its incident, the incident's tenant and the regime's format.
  predicate Tells(n: Notification, i: Incident, now: int, env: Environment) {
    && n.tenant == i.tenant && n.incident == i.id && n.format == n.regime.Format()
    && now - i.detectedAt >= n.regime.WindowHours() * HOUR && env(i.id, n.regime) == Sent(n.destinations)
  }

  ghost predicate Told(n: Notification, todo: seq<Visit>, now: int, env: Environment) {
    exists k :: 0 <= k < |todo| && n.regime in todo[k].regimes && Tells(n, todo[k].incident, now, env)
  }

  /** Every row a tick adds, whatever fails, says whose incident it is, which regime asked for it, in
      what format and how many destinations it went to. */
  lemma {:induction false} RowsTell(b: Books, todo: seq<Visit>, now: int, env: Environment)
    ensures forall n | n in AfterVisits(b, todo, now, env).rows :: n in b.rows || Told(n, todo, now, env)
    decreases |todo|, if todo == [] then 0 else |todo[0].regimes|
  {
    hide Has;
    if todo != [] {
      if todo[0].regimes == [] {
        RowsTell(b, todo[1..], now, env);
        LaterTold(todo, todo[1..], now, env);
      } else {
        var i, r := todo[0].incident, todo[0].regimes[0];
        var o := env(i.id, r);
        var b' := AfterPair(b, i, r, now, o);
        var left := if Abandons(b, i, r, now, o) then todo[1..] else Rest(todo);
        RowsTell(b', left, now, env);
        LaterTold(todo, left, now, env);
        PairTells(b, todo, now, env);
        hide AfterPair, Abandons, Told, AfterVisits;
      }
    }
  }

  lemma PairTells(b: Books, todo: seq<Visit>, now: int, env: Environment)
    requires todo != [] && todo[0].regimes != []
    ensures var i, r := todo[0].incident, todo[0].regimes[0];
            forall n | n in AfterPair(b, i, r, now, env(i.id, r)).rows :: n in b.rows || Told(n, todo, now, env)
  {
    hide Has;
    var i, r := todo[0].incident, todo[0].regimes[0];
    if env(i.id, r).Sent? && Due(i, r, now) {
      var n := NewRow(i, r, env(i.id, r).queued);
      assert n.regime in todo[0].regimes && Tells(n, todo[0].incident, now, env);
      assert Told(n, todo, now, env);
    }
  }

  lemma LaterTold(todo: seq<Visit>, left: seq<Visit>, now: int, env: Environment)
    requires todo != [] && (left == todo[1..] || (todo[0].regimes != [] && left == Rest(todo)))
    ensures forall n | Told(n, left, now, env) :: Told(n, todo, now, env)
  {
    hide Tells;
    forall n | Told(n, left, now, env)
      ensures Told(n, todo, now, env)
    {
      var k :| 0 <= k < |left| && n.regime in left[k].regimes && Tells(n, left[k].incident, now, env);
      var m := if left == todo[1..] then k + 1 else k;
      assert left[k].incident == todo[m].incident && n.regime in todo[m].regimes;
    }
  }

  lemma IdsApart(incidents: seq<Incident>, i: Incident, j: Incident)
    requires DistinctIds(incidents) && i in incidents && j in incidents && i != j
    ensures i.id != j.id
  {
  }

  // ── The assumptions can be met ─────────────────────────────────────

  lemma {:induction false} SomeOrder(s: set<Regime>) returns (order: seq<Regime>)
    ensures IsOrder(order, s)
    decreases |s|
  {
    order := [];
    if r :| r in s {
      var rest := SomeOrder(s - {r});
      order := rest + [r];
    }
  }

  lemma {:induction false} SomeVisits(scanned: seq<Incident>) returns (visits: seq<Visit>)
    ensures Ordered(visits, scanned)
    decreases |scanned|
  {
    visits := [];
    if scanned != [] {
      hide IsOrder, Applicable;
      var n := |scanned| - 1;
      visits := SomeVisits(scanned[..n]);
      var order := SomeOrder(Applicable(scanned[n]));
      visits := visits + [Visit(scanned[n], order)];
    }
  }

  /** From any books, any incident table has a failure-free tick. */
  lemma SomeTick(incidents: seq<Incident>, now: int, b: Books)
    returns (visits: seq<Visit>, env: Environment, end: Books)
    ensures FailureFree(env) && Ordered(visits, Scanned(incidents, now)) && end == AfterVisits(b, visits, now, env)
    ensures forall id, r :: TickedPair(Scanned(incidents, now), now, b.rows, b.log, end.rows, end.log, id, r)
  {
    hide Scanned, AfterVisits, TickedPair, Ordered;
    visits := SomeVisits(Scanned(incidents, now));
    env := (_, _) => Sent(1);
    end := AfterVisits(b, visits, now, env);
    VisitsTick(b, visits, Scanned(incidents, now), now, env, end);
  }

  // n incidents detected at 0, then one detected a microsecond later.
  function Crowd(n: nat): seq<Incident> {
    if n == 0 then [Incident(0, "t", 1, true, TagList([]))]
    else [Incident(n, "t", 0, true, TagList([]))] + Crowd(n - 1)
  }

  lemma {:induction false} CrowdIsOlder(n: nat, now: int)
    requires now > MinWindow() * HOUR + 1
    ensures Candidates(Crowd(n), now) == Crowd(n) && Older(Crowd(n), 1) == n && |Crowd(n)| == n + 1
    ensures forall k | 0 <= k <= n :: Crowd(n)[k].id == n - k
    ensures Crowd(n)[n] == Crowd(0)[0]
  {
    hide MinWindow;
    if n > 0 {
      CrowdIsOlder(n - 1, now);
      assert Crowd(n)[1..] == Crowd(n - 1);
    } else {
      assert Crowd(0)[1..] == [];
    }
  }

  /** An incident behind 200 older open ones. */
  lemma SomeCrowd(now: int) returns (incidents: seq<Incident>, i: Incident)
    requires now > MinWindow() * HOUR + 1
    ensures DistinctIds(incidents) && i in incidents && Candidate(i, now)
    ensures Older(Candidates(incidents, now), i.detectedAt) >= LIMIT
  {
    incidents, i := Crowd(LIMIT), Crowd(0)[0];
    CrowdIsOlder(LIMIT, now);
    hide Crowd, MinWindow, Older;
    assert incidents[LIMIT] == i;
    assert i in Candidates(incidents, now);
  }
}

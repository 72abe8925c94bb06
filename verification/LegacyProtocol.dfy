/** Callers of create_legacy_tables() in parallel: the shared index sets change one index at a time
    under the process-wide lock, and other callers' create_all walks the same sets. */
module LegacyProtocol {
  import opened Common
  import opened LegacyTables
  import opened Runs

  type Worker = nat
  type TableName = string
  type Pair = (TableName, Index)   // an index of a table

  datatype Pc =
    | Out
    | Detaching(tables: seq<TableName>, at: nat, pending: Option<set<Index>>, held: set<Pair>)
    | Creating(strip: bool, tables: seq<TableName>, held: set<Pair>)
    | Restoring(held: set<Pair>)

  // One table as a create_all visitor found it.
  datatype View = View(strip: bool, table: TableName, seen: set<Index>)

  datatype State = State(present: set<Pair>, pcs: map<Worker, Pc>, views: seq<View>)

  datatype Event =
    | Enter(w: Worker, strip: bool, tables: seq<TableName>)
    | Snapshot(w: Worker)                        // list(t.indexes)
    | Consider(w: Worker, idx: Index)            // the loop body on one index
    | NextTable(w: Worker)
    | StartCreate(w: Worker)
    | Visit(w: Worker, table: TableName)         // create_all reaches a table
    | EndCreate(w: Worker)                       // it returns or raises
    | PutBack(w: Worker, pair: Pair)
    | Leave(w: Worker)
    | Break(w: Worker)                           // an exception inside the detaching loop, before the try

  function PcOf(s: State, w: Worker): Pc {
    if w in s.pcs then s.pcs[w] else Out
  }

  function IndexesOf(present: set<Pair>, t: TableName): set<Index> {
    set p | p in present && p.0 == t :: p.1
  }

  function Held(pc: Pc): set<Pair> {
    if pc.Out? then {} else pc.held
  }

  predicate Enabled(s: State, e: Event) {
    var pc := PcOf(s, e.w);
    match e
    case Enter(_, _, _) => pc.Out?
    case Snapshot(_) => pc.Detaching? && pc.at < |pc.tables| && pc.pending.None?
    case Consider(_, idx) => pc.Detaching? && pc.at < |pc.tables| && pc.pending.Some? && idx in pc.pending.value
    case NextTable(_) => pc.Detaching? && pc.at < |pc.tables| && pc.pending == Some({})
    case StartCreate(_) => pc.Detaching? && pc.at == |pc.tables|
    case Visit(_, t) => pc.Creating? && t in pc.tables
    case EndCreate(_) => pc.Creating?
    case PutBack(_, p) => pc.Restoring? && p in pc.held
    case Leave(_) => pc.Restoring? && pc.held == {}
    case Break(_) => pc.Detaching?
  }

  function Next(s: State, e: Event): State
    requires Enabled(s, e)
  {
    var w, pc := e.w, PcOf(s, e.w);
    match e
    case Enter(_, strip, tables) =>
      s.(pcs := s.pcs[w := if strip then Detaching(tables, 0, None, {}) else Creating(false, tables, {})])
    case Snapshot(_) => s.(pcs := s.pcs[w := pc.(pending := Some(IndexesOf(s.present, pc.tables[pc.at])))])
    case Consider(_, idx) =>
      var pc' := pc.(pending := Some(pc.pending.value - {idx}));
      var p := (pc.tables[pc.at], idx);
      if Partial(idx)
      then s.(present := s.present - {p}, pcs := s.pcs[w := pc'.(held := pc.held + {p})])
      else s.(pcs := s.pcs[w := pc'])
    case NextTable(_) => s.(pcs := s.pcs[w := pc.(at := pc.at + 1, pending := None)])
    case StartCreate(_) => s.(pcs := s.pcs[w := Creating(true, pc.tables, pc.held)])
    case Visit(_, t) => s.(views := s.views + [View(pc.strip, t, IndexesOf(s.present, t))])
    case EndCreate(_) => s.(pcs := s.pcs[w := Restoring(pc.held)])
    case PutBack(_, p) => s.(present := s.present + {p}, pcs := s.pcs[w := Restoring(pc.held - {p})])
    case Leave(_) => s.(pcs := s.pcs[w := Out])
    case Break(_) => s.(pcs := s.pcs[w := Out])
  }

  function Start(original: set<Pair>): State {
    State(original, map[], [])
  }

  // Whether the lock is held over the whole of a call, and whether the detaching loop can break.
  datatype Config = Config(locked: bool, breaks: bool)

  ghost predicate Permits(cfg: Config, s: State, e: Event) {
    && Enabled(s, e)
    && (cfg.locked && e.Enter? ==> forall u :: PcOf(s, u).Out?)
    && (e.Break? ==> cfg.breaks)
  }

  ghost function Steps(cfg: Config): (State, Event, State) -> bool {
    (s, e, t) => Permits(cfg, s, e) && Next(s, e) == t
  }

  ghost predicate Reaches(cfg: Config, original: set<Pair>, events: seq<Event>, z: State) {
    Leads(Steps(cfg), Start(original), events, z)
  }

  predicate HasPartial(pairs: set<Pair>) {
    exists p :: p in pairs && Partial(p.1)
  }

  // ── Nothing is lost ────────────────────────────────────────────────

  predicate HeldOk(original: set<Pair>, pc: Pc) {
    && (forall p | p in Held(pc) :: p in original && Partial(p.1))
    && (pc.Detaching? && pc.pending.Some? ==>
          && pc.at < |pc.tables|
          && forall i | i in pc.pending.value :: (pc.tables[pc.at], i) in original)
  }

  // The pair is in its table's set, or somebody is going to put it back.
  ghost predicate Accounted(s: State, p: Pair) {
    p in s.present || exists w :: p in Held(PcOf(s, w))
  }

  ghost predicate Kept(original: set<Pair>, s: State) {
    && s.present <= original
    && (forall w :: HeldOk(original, PcOf(s, w)))
    && forall p | p in original :: Accounted(s, p)
  }

  lemma HeldOkNext(original: set<Pair>, s: State, e: Event)
    requires Kept(original, s) && Enabled(s, e)
    ensures Next(s, e).present <= original
    ensures forall w :: HeldOk(original, PcOf(Next(s, e), w))
  {
    var s' := Next(s, e);
    assert HeldOk(original, PcOf(s, e.w));
    forall w
      ensures HeldOk(original, PcOf(s', w))
    {
      assert HeldOk(original, PcOf(s, w));
    }
  }

  lemma AccountedNext(original: set<Pair>, s: State, e: Event, p: Pair)
    requires Kept(original, s) && Enabled(s, e) && p in original
    requires e.Break? ==> !HasPartial(original)
    ensures Accounted(Next(s, e), p)
  {
    var s' := Next(s, e);
    assert HeldOk(original, PcOf(s, e.w));
    assert Accounted(s, p);
    if p in s.present {
      if p !in s'.present {
        assert p in Held(PcOf(s', e.w));
      }
    } else {
      var w :| p in Held(PcOf(s, w));
      if w != e.w {
        assert PcOf(s', w) == PcOf(s, w);
      } else if p !in s'.present {
        assert p in Held(PcOf(s', w));
      }
    }
  }

  lemma KeptNext(original: set<Pair>, s: State, e: Event)
    requires Kept(original, s) && Enabled(s, e) && (e.Break? ==> !HasPartial(original))
    ensures Kept(original, Next(s, e))
  {
    hide HeldOk, Accounted, Enabled, Next, HasPartial;
    HeldOkNext(original, s, e);
    forall p | p in original
      ensures Accounted(Next(s, e), p)
    {
      AccountedNext(original, s, e, p);
    }
  }

  lemma {:induction false} KeptAfter(cfg: Config, original: set<Pair>, s: State, events: seq<Event>, z: State)
    requires Kept(original, s) && Leads(Steps(cfg), s, events, z)
    requires cfg.breaks ==> !HasPartial(original)
    ensures Kept(original, z)
    decreases |events|
  {
    hide Kept, Enabled, Next, HasPartial;
    if events != [] {
      var t :| Steps(cfg)(s, events[0], t) && Leads(Steps(cfg), t, events[1..], z);
      Permitted(cfg, s, events[0], t);
      KeptNext(original, s, events[0]);
      KeptAfter(cfg, original, t, events[1..], z);
    }
  }

  lemma Permitted(cfg: Config, s: State, e: Event, t: State)
    requires Steps(cfg)(s, e, t)
    ensures Permits(cfg, s, e) && Next(s, e) == t
  {
  }

  ghost predicate Quiet(s: State) {
    forall w :: PcOf(s, w).Out?
  }

  lemma KeptAndQuiet(original: set<Pair>, s: State)
    requires Kept(original, s) && Quiet(s)
    ensures s.present == original
  {
    forall p | p in original
      ensures p in s.present
    {
      assert Accounted(s, p);
    }
  }

  // A stripping caller takes one partial index and its loop breaks.
  function Cut(p: Pair): seq<Event> {
    [Enter(0, true, [p.0]), Snapshot(0), Consider(0, p.1), Break(0)]
  }

  lemma CutLoses(cfg: Config, original: set<Pair>, p: Pair) returns (z: State)
    requires cfg.breaks && p in original && Partial(p.1)
    ensures Reaches(cfg, original, Cut(p), z)
    ensures Quiet(z) && z.present == original - {p}
  {
    var e, s0 := Cut(p), Start(original);
    var s1 := Next(s0, e[0]);
    var s2 := Next(s1, e[1]);
    assert p.1 in IndexesOf(original, p.0);
    var s3 := Next(s2, e[2]);
    z := Next(s3, e[3]);
    Ends(Steps(cfg), e, z);
    Take(cfg, s3, e, 3, z);
    Take(cfg, s2, e, 2, z);
    Take(cfg, s1, e, 1, z);
    Take(cfg, s0, e, 0, z);
    FromStart(Steps(cfg), s0, e, z);
  }

  lemma Take(cfg: Config, s: State, run: seq<Event>, k: nat, z: State)
    requires k < |run| && Permits(cfg, s, run[k]) && From(Steps(cfg), Next(s, run[k]), run, k + 1, z)
    ensures From(Steps(cfg), s, run, k, z)
  {
    var step := Steps(cfg);
    assert step(s, run[k], Next(s, run[k]));
    Before(step, s, Next(s, run[k]), run, k, z);
  }

  /** Whether or not the lock is there: whenever no call is in progress every table has exactly its
      original indexes, if and only if the detaching loop cannot be cut short or nothing is partial. */
  lemma RestoredIff(cfg: Config, original: set<Pair>)
    ensures (forall events, z | Reaches(cfg, original, events, z) && Quiet(z) :: z.present == original) <==>
            !cfg.breaks || !HasPartial(original)
  {
    if !cfg.breaks || !HasPartial(original) {
      forall events, z | Reaches(cfg, original, events, z) && Quiet(z)
        ensures z.present == original
      {
        KeptAfter(cfg, original, Start(original), events, z);
        KeptAndQuiet(original, z);
      }
    } else {
      var p :| p in original && Partial(p.1);
      var z := CutLoses(cfg, original, p);
      assert p !in z.present;
    }
  }

  // ── What creation sees ─────────────────────────────────────────────

  /** No partial index for a caller whose database rejects them; every index for the others. */
  predicate RightView(original: set<Pair>, v: View) {
    v.seen == if v.strip then Whole(IndexesOf(original, v.table)) else IndexesOf(original, v.table)
  }

  ghost predicate AllRight(original: set<Pair>, s: State) {
    forall k | 0 <= k < |s.views| :: RightView(original, s.views[k])
  }

  // Every partial index of the table has been taken by the caller.
  predicate Stripped(original: set<Pair>, t: TableName, held: set<Pair>) {
    forall p | p in original && p.0 == t && Partial(p.1) :: p in held
  }

  predicate Progress(original: set<Pair>, pc: Pc) {
    match pc
    case Detaching(tables, at, pending, held) =>
      && at <= |tables|
      && (forall k | 0 <= k < at :: Stripped(original, tables[k], held))
      && (pending.Some? ==> at < |tables| && forall p | p in original && p.0 == tables[at] && Partial(p.1) ::
            p in held || p.1 in pending.value)
    case Creating(strip, tables, held) =>
      if strip then forall k | 0 <= k < |tables| :: Stripped(original, tables[k], held) else held == {}
    case _ => true
  }

  // At most one caller is inside, and exactly the indexes it holds are missing.
  ghost predicate Solo(original: set<Pair>, s: State) {
    && (Quiet(s) ==> s.present == original)
    && forall w | !PcOf(s, w).Out? :: Inside(original, s, w)
  }

  ghost predicate Inside(original: set<Pair>, s: State, w: Worker) {
    && (forall u | u != w :: PcOf(s, u).Out?)
    && s.present == original - Held(PcOf(s, w)) && Held(PcOf(s, w)) <= original
    && (forall p | p in Held(PcOf(s, w)) :: Partial(p.1))
    && Progress(original, PcOf(s, w))
  }

  lemma SoloNext(cfg: Config, original: set<Pair>, s: State, e: Event)
    requires cfg.locked && !cfg.breaks && Kept(original, s) && Solo(original, s) && Permits(cfg, s, e)
    ensures Solo(original, Next(s, e))
  {
    var s' := Next(s, e);
    assert HeldOk(original, PcOf(s, e.w));
    assert forall u | u != e.w :: PcOf(s', u) == PcOf(s, u) && PcOf(s', u).Out? by {
      if !e.Enter? {
        assert Inside(original, s, e.w);
      }
    }
    if e.Enter? {
      assert Quiet(s);
      assert Inside(original, s', e.w);
    } else {
      assert Inside(original, s, e.w);
      if e.Leave? {
        assert s'.present == original;
      } else {
        InsideNext(original, s, e);
        assert !PcOf(s', e.w).Out?;
      }
    }
  }

  lemma InsideNext(original: set<Pair>, s: State, e: Event)
    requires Enabled(s, e) && !e.Enter? && !e.Leave? && !e.Break?
    requires HeldOk(original, PcOf(s, e.w)) && Inside(original, s, e.w)
    ensures Inside(original, Next(s, e), e.w)
  {
    var s' := Next(s, e);
    assert forall u | u != e.w :: PcOf(s', u) == PcOf(s, u);
    match e {
      case Snapshot(w) =>
        var pc := PcOf(s, w);
        forall p | p in original && p.0 == pc.tables[pc.at] && Partial(p.1)
          ensures p in pc.held || p.1 in IndexesOf(s.present, pc.tables[pc.at])
        {
        }
      case Consider(_, _) =>
      case NextTable(_) =>
      case PutBack(_, _) =>
      case _ =>
    }
  }

  lemma VisitSeesRight(original: set<Pair>, s: State, e: Event)
    requires Enabled(s, e) && e.Visit? && Inside(original, s, e.w)
    ensures RightView(original, View(PcOf(s, e.w).strip, e.table, IndexesOf(s.present, e.table)))
  {
    var pc := PcOf(s, e.w);
    var k :| 0 <= k < |pc.tables| && pc.tables[k] == e.table;
    if pc.strip {
      assert Stripped(original, pc.tables[k], pc.held);
      assert IndexesOf(s.present, e.table) == Whole(IndexesOf(original, e.table));
    }
  }

  lemma NothingPartial(original: set<Pair>, s: State)
    requires Kept(original, s) && !HasPartial(original)
    ensures s.present == original
  {
    forall w
      ensures Held(PcOf(s, w)) == {}
    {
      assert HeldOk(original, PcOf(s, w));
    }
    forall p | p in original
      ensures p in s.present
    {
      assert Accounted(s, p);
    }
  }

  lemma AllViewsRightNext(cfg: Config, original: set<Pair>, s: State, e: Event)
    requires (cfg.locked && !cfg.breaks && Solo(original, s)) || !HasPartial(original)
    requires Kept(original, s) && AllRight(original, s) && Permits(cfg, s, e)
    ensures AllRight(original, Next(s, e))
  {
    var s' := Next(s, e);
    if e.Visit? {
      if HasPartial(original) {
        VisitSeesRight(original, s, e);
      } else {
        NothingPartial(original, s);
        assert Whole(IndexesOf(original, e.table)) == IndexesOf(original, e.table);
      }
      forall k | 0 <= k < |s'.views|
        ensures RightView(original, s'.views[k])
      {
        assert k < |s.views| ==> s'.views[k] == s.views[k];
      }
    }
  }

  lemma {:induction false} ViewsAfter(cfg: Config, original: set<Pair>, s: State, events: seq<Event>, z: State)
    requires (cfg.locked && !cfg.breaks && Solo(original, s)) || !HasPartial(original)
    requires Kept(original, s) && AllRight(original, s) && Leads(Steps(cfg), s, events, z)
    ensures AllRight(original, z)
    decreases |events|
  {
    hide Solo, Kept, AllRight, HasPartial, Enabled, Next;
    if events != [] {
      var e := events[0];
      var t :| Steps(cfg)(s, e, t) && Leads(Steps(cfg), t, events[1..], z);
      AllViewsRightNext(cfg, original, s, e);
      KeptNext(original, s, e);
      if cfg.locked && !cfg.breaks && Solo(original, s) {
        SoloNext(cfg, original, s, e);
      }
      ViewsAfter(cfg, original, t, events[1..], z);
    }
  }

  // A caller on PostgreSQL creates the table after, or while, a stripping caller has one of its indexes.
  function Miss(cfg: Config, p: Pair): seq<Event> {
    [Enter(0, true, [p.0]), Snapshot(0), Consider(0, p.1)]
    + (if cfg.locked then [Break(0)] else [])
    + [Enter(1, false, [p.0]), Visit(1, p.0)]
  }

  // The first caller has taken the index of p out of its set.
  function Stripping(original: set<Pair>, p: Pair): State {
    State(original - {p}, map[0 := Detaching([p.0], 0, Some(IndexesOf(original, p.0) - {p.1}), {p})], [])
  }

  lemma MissStrips(cfg: Config, original: set<Pair>, p: Pair, run: seq<Event>, z: State)
    requires p in original && Partial(p.1)
    requires |run| > 3 && run[0] == Enter(0, true, [p.0]) && run[1] == Snapshot(0) && run[2] == Consider(0, p.1)
    requires From(Steps(cfg), Stripping(original, p), run, 3, z)
    ensures Leads(Steps(cfg), Start(original), run, z)
  {
    hide IndexesOf, Steps, From, Partial;
    var s1 := State(original, map[0 := Detaching([p.0], 0, None, {})], []);
    var s2 := State(original, map[0 := Detaching([p.0], 0, Some(IndexesOf(original, p.0)), {})], []);
    assert p.1 in IndexesOf(original, p.0) by { Indexed(original, p); }
    assert {} + {p} == {p};
    assert Next(s2, run[2]).pcs == Stripping(original, p).pcs;
    Take(cfg, s2, run, 2, z);
    assert Next(s1, run[1]) == s2;
    Take(cfg, s1, run, 1, z);
    assert Next(Start(original), run[0]) == s1;
    Take(cfg, Start(original), run, 0, z);
    FromStart(Steps(cfg), Start(original), run, z);
  }

  lemma Indexed(original: set<Pair>, p: Pair)
    requires p in original
    ensures p.1 in IndexesOf(original, p.0)
  {
  }

  lemma MissSeesWrong(cfg: Config, original: set<Pair>, p: Pair) returns (z: State)
    requires (!cfg.locked || cfg.breaks) && p in original && Partial(p.1)
    ensures Reaches(cfg, original, Miss(cfg, p), z) && !AllRight(original, z)
  {
    hide IndexesOf, Steps, From, AllRight, Partial;
    var e, s := Miss(cfg, p), Stripping(original, p);
    if cfg.locked {
      z := MissEnds(cfg, original, Next(s, e[3]), e, 4, p);
      Take(cfg, s, e, 3, z);
    } else {
      z := MissEnds(cfg, original, s, e, 3, p);
    }
    MissStrips(cfg, original, p, e, z);
  }

  // The second caller creates the table while the pair is missing.
  lemma MissEnds(cfg: Config, original: set<Pair>, s: State, run: seq<Event>, k: nat, p: Pair) returns (z: State)
    requires |run| == k + 2 && run[k] == Enter(1, false, [p.0]) && run[k + 1] == Visit(1, p.0)
    requires p in original && s.present == original - {p} && s.views == [] && PcOf(s, 1).Out?
             && (cfg.locked ==> Quiet(s))
    ensures From(Steps(cfg), s, run, k, z) && !AllRight(original, z)
  {
    var t := Next(s, run[k]);
    z := Next(t, run[k + 1]);
    Ends(Steps(cfg), run, z);
    Take(cfg, t, run, k + 1, z);
    Take(cfg, s, run, k, z);
    MissedOne(original, z.views[0], p);
  }

  lemma MissedOne(original: set<Pair>, v: View, p: Pair)
    requires p in original && v == View(false, p.0, IndexesOf(original - {p}, p.0))
    ensures !RightView(original, v)
  {
    assert p.1 in IndexesOf(original, p.0) && p.1 !in v.seen;
  }

  /** Creation on DuckDB and MySQL sees no partial index and everywhere else sees all of them, on
      every run of any number of callers, if and only if calls hold the lock and their detaching
      loop is never cut short, or nothing is partial. */
  lemma ViewsIff(cfg: Config, original: set<Pair>)
    ensures (forall events, z | Reaches(cfg, original, events, z) :: AllRight(original, z)) <==>
            (cfg.locked && !cfg.breaks) || !HasPartial(original)
  {
    if (cfg.locked && !cfg.breaks) || !HasPartial(original) {
      forall events, z | Reaches(cfg, original, events, z)
        ensures AllRight(original, z)
      {
        ViewsAfter(cfg, original, Start(original), events, z);
      }
    } else {
      var p :| p in original && Partial(p.1);
      hide AllRight;
      var z := MissSeesWrong(cfg, original, p);
    }
  }
}

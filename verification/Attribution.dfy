/** Who a captured row belongs to (kya/autoinstrument.py): any number of tasks run wrapped calls
    through one shared recorder, and each capture is cut into the steps other threads can see. */
module Attribution {
  import opened Common
  import opened Responses
  import opened Runs

  type Task = nat
  type ContextId = nat
  type CallId = nat

  // `_InstrumentationContext`: the identity never changes; invocation 0 is None.
  datatype Identity = Identity(tenant: string, agent: string, correlation: string, dataClasses: seq<string>)
  datatype Context = Context(identity: Identity, invocation: nat)

  // A capture in progress or over: how many items it has offered, and how many inserts failed.
  datatype Call = Call(task: Task, context: ContextId, items: seq<Item>, done: nat, lost: nat)

  // Invocation ids are positions in the table plus one; `context` is what it was recorded for.
  datatype Invocation = Invocation(context: ContextId, tenant: string, agent: string, correlation: string)

  // An evidence row. Of the identity it stores tenant, correlation and data classes; the agent is
  // the one on its invocation row.
  datatype Row = Row(call: CallId, index: nat, identity: Identity, invocation: nat, item: Item)

  datatype Pc =
    | Idle
    | Looking(call: CallId)              // next: is ctx.invocation_id None?
    | Recording(call: CallId)            // it was; next: record_inv()
    | Storing(call: CallId, id: nat)     // next: ctx.invocation_id = id
    | Reading(call: CallId)              // next: inv = ctx.invocation_id
    | Emitting(call: CallId, inv: nat)   // next: the insert of the call's next item

  datatype State = State(contexts: seq<Context>, bound: map<Task, ContextId>, invocations: seq<Invocation>,
                         calls: seq<Call>, rows: seq<Row>, pcs: map<Task, Pc>)

  datatype Event =
    | Instrument(t: Task, identity: Identity)
    | Deinstrument(t: Task)
    | Spawn(t: Task, child: Task)                            // the child starts with a copy of t's context variables
    | Begin(t: Task, captured: Captured)                       // the SDK call is over; _capture_call / _capture_error
    | Look(t: Task)
    | RecordInv(t: Task, stored: bool, returned: bool)       // the row is written; the recorder returns its id
    | Store(t: Task)
    | Read(t: Task)
    | EmitRow(t: Task, stored: bool)
    | Abort(t: Task)                                         // an exception ends the capture

  function PcOf(s: State, t: Task): Pc {
    if t in s.pcs then s.pcs[t] else Idle
  }

  // The recorder finds its caller's context, and the call it is busy with is a call.
  predicate Ready(s: State, t: Task) {
    var pc := PcOf(s, t);
    !pc.Idle? ==> pc.call < |s.calls| && t in s.bound && s.bound[t] < |s.contexts|
  }

  predicate Enabled(s: State, e: Event) {
    var pc := PcOf(s, e.t);
    match e
    case Instrument(_, _) => pc.Idle?
    case Deinstrument(_) => pc.Idle?
    case Spawn(t, child) => pc.Idle? && PcOf(s, child).Idle? && t in s.bound && child !in s.bound
    case Begin(t, _) => pc.Idle? && t in s.bound && s.bound[t] < |s.contexts|
    case Look(t) => pc.Looking? && Ready(s, t)
    case RecordInv(t, stored, returned) => pc.Recording? && Ready(s, t) && (returned ==> stored)
    case Store(t) => pc.Storing? && Ready(s, t)
    case Read(t) => pc.Reading? && Ready(s, t)
    case EmitRow(t, _) => pc.Emitting? && Ready(s, t) && s.calls[pc.call].done < |s.calls[pc.call].items|
    case Abort(_) => !pc.Idle?
  }

  // The recorders look the context up again instead of passing it along.
  function Mine(s: State, t: Task): Context
    requires t in s.bound && s.bound[t] < |s.contexts|
  {
    s.contexts[s.bound[t]]
  }

  function AfterRead(s: State, c: CallId, inv: nat): Pc
    requires c < |s.calls|
  {
    if inv == 0 || s.calls[c].items == [] then Idle else Emitting(c, inv)
  }

  function Next(s: State, e: Event): State
    requires Enabled(s, e)
  {
    var t, pc := e.t, PcOf(s, e.t);
    match e
    case Instrument(_, identity) =>
      s.(contexts := s.contexts + [Context(identity, 0)], bound := s.bound[t := |s.contexts|])
    case Deinstrument(_) => s.(bound := s.bound - {t})
    case Spawn(_, child) => s.(bound := s.bound[child := s.bound[t]])
    case Begin(_, captured) =>
      s.(calls := s.calls + [Call(t, s.bound[t], RowsOf(captured), 0, 0)], pcs := s.pcs[t := Looking(|s.calls|)])
    case Look(_) =>
      s.(pcs := s.pcs[t := if Mine(s, t).invocation == 0 then Recording(pc.call) else Reading(pc.call)])
    case RecordInv(_, stored, returned) =>
      var id := Mine(s, t).identity;
      var s' := s.(pcs := s.pcs[t := Storing(pc.call, if returned then |s.invocations| + 1 else 0)]);
      if stored
      then s'.(invocations := s.invocations + [Invocation(s.bound[t], id.tenant, id.agent, id.correlation)])
      else s'
    case Store(_) =>
      s.(contexts := s.contexts[s.bound[t] := Mine(s, t).(invocation := pc.id)], pcs := s.pcs[t := Reading(pc.call)])
    case Read(_) => s.(pcs := s.pcs[t := AfterRead(s, pc.call, Mine(s, t).invocation)])
    case EmitRow(_, stored) =>
      var call := s.calls[pc.call];
      var call' := call.(done := call.done + 1, lost := call.lost + if stored then 0 else 1);
      var s' := s.(calls := s.calls[pc.call := call'],
                   pcs := s.pcs[t := if call'.done == |call.items| then Idle else pc]);
      if stored
      then s'.(rows := s.rows + [Row(pc.call, call.done, Mine(s, t).identity, pc.inv, call.items[call.done])])
      else s'
    case Abort(_) => s.(pcs := s.pcs[t := Idle])
  }

  const INITIAL := State([], map[], [], [], [], map[])

  ghost predicate Step(s: State, e: Event, t: State) {
    Enabled(s, e) && Next(s, e) == t
  }

  // ── What every interleaving keeps ──────────────────────────────────

  // The invocation was recorded for the context.
  predicate Belongs(s: State, inv: nat, x: ContextId) {
    1 <= inv <= |s.invocations| && s.invocations[inv - 1].context == x
  }

  predicate ContextOk(s: State, x: ContextId)
    requires x < |s.contexts|
  {
    s.contexts[x].invocation == 0 || Belongs(s, s.contexts[x].invocation, x)
  }

  predicate InvocationOk(s: State, i: nat)
    requires i < |s.invocations|
  {
    var v := s.invocations[i];
    && v.context < |s.contexts|
    && (var id := s.contexts[v.context].identity;
        v.tenant == id.tenant && v.agent == id.agent && v.correlation == id.correlation)
  }

  predicate TaskOk(s: State, t: Task) {
    var pc := PcOf(s, t);
    && (t in s.bound ==> s.bound[t] < |s.contexts|)
    && (!pc.Idle? ==>
          && Ready(s, t) && s.calls[pc.call].task == t && s.calls[pc.call].context == s.bound[t]
          && (if pc.Emitting? then s.calls[pc.call].done < |s.calls[pc.call].items| else s.calls[pc.call].done == 0)
          && (pc.Storing? ==> pc.id == 0 || Belongs(s, pc.id, s.bound[t]))
          && (pc.Emitting? ==> Belongs(s, pc.inv, s.bound[t])))
  }

  /** A row carries the identity of the context its call ran under, and an invocation recorded for it. */
  predicate RowOk(s: State, r: Row) {
    && r.call < |s.calls|
    && (var call := s.calls[r.call];
        && call.context < |s.contexts| && r.identity == s.contexts[call.context].identity
        && Belongs(s, r.invocation, call.context)
        && r.index < call.done <= |call.items| && r.item == call.items[r.index])
  }

  ghost predicate InOrder(rows: seq<Row>) {
    forall i, j | 0 <= i < j < |rows| && rows[i].call == rows[j].call :: rows[i].index < rows[j].index
  }

  // The items stored for a call, in table order.
  function Stored(rows: seq<Row>, c: CallId): seq<Item> {
    if rows == [] then []
    else Stored(rows[..|rows| - 1], c) + if rows[|rows| - 1].call == c then [rows[|rows| - 1].item] else []
  }

  lemma StoredAppend(rows: seq<Row>, r: Row, c: CallId)
    ensures Stored(rows + [r], c) == Stored(rows, c) + if r.call == c then [r.item] else []
  {
    assert (rows + [r])[..|rows|] == rows;
  }

  lemma {:induction false} StoredNone(rows: seq<Row>, c: CallId)
    requires forall k | 0 <= k < |rows| :: rows[k].call != c
    ensures Stored(rows, c) == []
  {
    if rows != [] {
      StoredNone(rows[..|rows| - 1], c);
    }
  }

  predicate CallOk(s: State, c: CallId)
    requires c < |s.calls|
  {
    && s.calls[c].context < |s.contexts| && s.calls[c].done <= |s.calls[c].items|
    && (s.calls[c].lost == 0 ==> Stored(s.rows, c) == s.calls[c].items[..s.calls[c].done])
  }

  ghost predicate Inv(s: State) {
    && (forall x | 0 <= x < |s.contexts| :: ContextOk(s, x))
    && (forall i | 0 <= i < |s.invocations| :: InvocationOk(s, i))
    && (forall t :: TaskOk(s, t))
    && (forall k | 0 <= k < |s.rows| :: RowOk(s, s.rows[k]))
    && (forall c | 0 <= c < |s.calls| :: CallOk(s, c))
    && InOrder(s.rows)
  }

  // Nothing is ever renamed or reassigned.
  ghost predicate Grows(s: State, t: State) {
    && |s.contexts| <= |t.contexts| && s.invocations <= t.invocations && |s.calls| <= |t.calls| && s.rows <= t.rows
    && (forall x | 0 <= x < |s.contexts| :: t.contexts[x].identity == s.contexts[x].identity)
    && (forall c | 0 <= c < |s.calls| ::
          t.calls[c].(done := 0, lost := 0) == s.calls[c].(done := 0, lost := 0) && s.calls[c].done <= t.calls[c].done)
  }

  lemma StepGrows(s: State, e: Event)
    requires Enabled(s, e)
    ensures Grows(s, Next(s, e))
  {
    hide RowsOf;
  }

  lemma BelongsStays(s: State, t: State, inv: nat, x: ContextId)
    requires Grows(s, t) && Belongs(s, inv, x)
    ensures Belongs(t, inv, x)
  {
  }

  lemma InvocationsNext(s: State, e: Event)
    requires Inv(s) && Enabled(s, e)
    ensures forall i | 0 <= i < |Next(s, e).invocations| :: InvocationOk(Next(s, e), i)
  {
    var s' := Next(s, e);
    assert TaskOk(s, e.t);
    StepGrows(s, e);
    forall i | 0 <= i < |s'.invocations|
      ensures InvocationOk(s', i)
    {
      if i < |s.invocations| {
        assert InvocationOk(s, i);
        assert s'.invocations[i] == s.invocations[i];
      }
    }
  }

  lemma ContextsNext(s: State, e: Event)
    requires Inv(s) && Enabled(s, e)
    ensures forall x | 0 <= x < |Next(s, e).contexts| :: ContextOk(Next(s, e), x)
  {
    hide Belongs, Stored, RowsOf, RowOk, CallOk, InOrder;
    var s' := Next(s, e);
    assert TaskOk(s, e.t);
    StepGrows(s, e);
    forall x | 0 <= x < |s'.contexts|
      ensures ContextOk(s', x)
    {
      if x < |s.contexts| {
        assert ContextOk(s, x);
        if s.contexts[x].invocation != 0 {
          BelongsStays(s, s', s.contexts[x].invocation, x);
        }
        if e.Store? && x == s.bound[e.t] && PcOf(s, e.t).id != 0 {
          BelongsStays(s, s', PcOf(s, e.t).id, x);
        }
      }
    }
  }

  lemma OtherTaskNext(s: State, e: Event, u: Task)
    requires Inv(s) && Enabled(s, e) && u != e.t
    ensures TaskOk(Next(s, e), u)
  {
    assert TaskOk(s, e.t) && TaskOk(s, u);
    hide Stored, RowsOf, RowOk, InOrder, Belongs, Inv;
    var s', pc := Next(s, e), PcOf(s, u);
    StepGrows(s, e);
    if pc.Storing? && pc.id != 0 {
      BelongsStays(s, s', pc.id, s.bound[u]);
    }
    if pc.Emitting? {
      BelongsStays(s, s', pc.inv, s.bound[u]);
    }
  }

  lemma OwnTaskNext(s: State, e: Event)
    requires Inv(s) && Enabled(s, e)
    ensures TaskOk(Next(s, e), e.t)
  {
    hide Stored, RowsOf, RowOk, InOrder, Belongs;
    var s', pc := Next(s, e), PcOf(s, e.t);
    assert TaskOk(s, e.t);
    StepGrows(s, e);
    if e.RecordInv? && e.returned {
      assert Belongs(s', |s'.invocations|, s.bound[e.t]) by {
        NewBelongs(s, s', s.bound[e.t]);
      }
    }
    if e.Read? {
      assert ContextOk(s, s.bound[e.t]);
      if Mine(s, e.t).invocation != 0 {
        BelongsStays(s, s', Mine(s, e.t).invocation, s.bound[e.t]);
      }
    }
    if e.EmitRow? {
      BelongsStays(s, s', pc.inv, s.bound[e.t]);
    }
  }

  lemma NewBelongs(s: State, t: State, x: ContextId)
    requires |t.invocations| == |s.invocations| + 1 && t.invocations[|s.invocations|].context == x
    ensures Belongs(t, |t.invocations|, x)
  {
  }

  lemma TasksNext(s: State, e: Event)
    requires Inv(s) && Enabled(s, e)
    ensures forall t :: TaskOk(Next(s, e), t)
  {
    forall t
      ensures TaskOk(Next(s, e), t)
    {
      hide *;
      if t == e.t {
        OwnTaskNext(s, e);
      } else {
        OtherTaskNext(s, e, t);
      }
    }
  }

  lemma RowsNext(s: State, e: Event)
    requires Inv(s) && Enabled(s, e)
    ensures forall k | 0 <= k < |Next(s, e).rows| :: RowOk(Next(s, e), Next(s, e).rows[k])
  {
    hide Stored, RowsOf, InOrder;
    var s' := Next(s, e);
    StepGrows(s, e);
    assert TaskOk(s, e.t);
    forall k | 0 <= k < |s'.rows|
      ensures RowOk(s', s'.rows[k])
    {
      if k < |s.rows| {
        assert RowOk(s, s.rows[k]);
        assert s'.rows[k] == s.rows[k];
      }
    }
  }

  lemma OrderNext(s: State, e: Event)
    requires Inv(s) && Enabled(s, e)
    ensures InOrder(Next(s, e).rows)
  {
    hide Stored, RowsOf, Belongs;
    var s' := Next(s, e);
    forall i, j | 0 <= i < j < |s'.rows| && s'.rows[i].call == s'.rows[j].call
      ensures s'.rows[i].index < s'.rows[j].index
    {
      assert RowOk(s, s.rows[i]);
    }
  }

  lemma CallsNext(s: State, e: Event)
    requires Inv(s) && Enabled(s, e)
    ensures forall c | 0 <= c < |Next(s, e).calls| :: CallOk(Next(s, e), c)
  {
    hide RowsOf, Belongs, InOrder, Stored;
    var s' := Next(s, e);
    assert TaskOk(s, e.t);
    StepGrows(s, e);
    forall c | 0 <= c < |s'.calls|
      ensures CallOk(s', c)
    {
      if c < |s.calls| {
        assert CallOk(s, c);
        if e.EmitRow? && e.stored {
          StoredAppend(s.rows, s'.rows[|s.rows|], c);
        }
      } else {
        forall k | 0 <= k < |s.rows|
          ensures s.rows[k].call != c
        {
          assert RowOk(s, s.rows[k]);
        }
        StoredNone(s.rows, c);
      }
    }
  }

  lemma InvNext(s: State, e: Event)
    requires Inv(s) && Enabled(s, e)
    ensures Inv(Next(s, e))
  {
    hide Next, ContextOk, InvocationOk, TaskOk, RowOk, CallOk, InOrder;
    InvocationsNext(s, e);
    ContextsNext(s, e);
    TasksNext(s, e);
    RowsNext(s, e);
    OrderNext(s, e);
    CallsNext(s, e);
  }

  lemma InvAlways(events: seq<Event>, z: State)
    requires Leads(Step, INITIAL, events, z)
    ensures Inv(z)
  {
    assert Inv(INITIAL);
    hide Inv, Enabled, Next;
    forall s, e, t | Inv(s) && Step(s, e, t)
      ensures Inv(t)
    {
      InvNext(s, e);
    }
    Preserved(Step, Inv, INITIAL, events, z);
  }

  /** However tasks, threads, failed inserts and aborted captures interleave: every row carries the
      tenant, correlation and data classes of its call's context and an invocation recorded with that
      context's tenant and agent, and is one of its call's items; a call's rows are in item order. */
  lemma RowsAttributed(events: seq<Event>, z: State)
    requires Leads(Step, INITIAL, events, z)
    ensures InOrder(z.rows)
    ensures forall k | 0 <= k < |z.rows| :: RowOk(z, z.rows[k]) && InvocationOk(z, z.rows[k].invocation - 1)
  {
    hide Leads, InOrder;
    InvAlways(events, z);
  }

  // What the captures of a run were of, in the order they began.
  function Begun(events: seq<Event>): seq<Captured> {
    if events == [] then []
    else (if events[0].Begin? then [events[0].captured] else []) + Begun(events[1..])
  }

  lemma CallBegins(s: State, e: Event)
    requires Enabled(s, e)
    ensures var s' := Next(s, e);
            && |s'.calls| == |s.calls| + (if e.Begin? then 1 else 0)
            && (forall c | 0 <= c < |s.calls| :: s'.calls[c].items == s.calls[c].items)
            && (e.Begin? ==> s'.calls[|s.calls|].items == RowsOf(e.captured))
  {
    hide RowsOf;
  }

  lemma {:induction false} CallsBegun(s: State, events: seq<Event>, z: State)
    requires Leads(Step, s, events, z)
    ensures |z.calls| == |s.calls| + |Begun(events)|
    ensures forall c | 0 <= c < |s.calls| :: z.calls[c].items == s.calls[c].items
    ensures forall c | |s.calls| <= c < |z.calls| :: z.calls[c].items == RowsOf(Begun(events)[c - |s.calls|])
    decreases |events|
  {
    hide RowsOf, Enabled, Next;
    if events != [] {
      var t :| Step(s, events[0], t) && Leads(Step, t, events[1..], z);
      CallBegins(s, events[0]);
      CallsBegun(t, events[1..], z);
    }
  }

  /** A capture that went through without a failed insert has stored exactly the evidence of what it
      captured: the prompt, then the response, then every tool call; or the prompt, then the error. */
  lemma CompleteCapture(events: seq<Event>, z: State, c: CallId)
    requires Leads(Step, INITIAL, events, z)
    requires c < |z.calls| && z.calls[c].lost == 0 && z.calls[c].done == |z.calls[c].items|
    ensures c < |Begun(events)| && Evidence(Stored(z.rows, c), Begun(events)[c])
  {
    hide Leads, InOrder, Stored, Evidence, RowsOf;
    InvAlways(events, z);
    CallsBegun(INITIAL, events, z);
    RowsAreEvidence(Begun(events)[c]);
    assert CallOk(z, c);
    assert Stored(z.rows, c) == z.calls[c].items;
  }

  // ── Exactly when a context has one invocation ──────────────────────

  // Whether threads can interleave inside a capture (an event loop switches tasks only at an
  // await, and a capture has none), and whether tasks can inherit each other's context.
  datatype Config = Config(preemptive: bool, sharing: bool)

  ghost predicate AloneInCapture(s: State, t: Task) {
    forall u | u != t :: PcOf(s, u).Idle?
  }

  ghost predicate Permits(cfg: Config, s: State, e: Event) {
    && Enabled(s, e)
    && (!cfg.preemptive ==> AloneInCapture(s, e.t))
    && (!cfg.sharing ==> !e.Spawn?)
  }

  ghost function Steps(cfg: Config): (State, Event, State) -> bool {
    (s, e, t) => Permits(cfg, s, e) && Next(s, e) == t
  }

  predicate SameContext(s: State, i: nat, j: nat)
    requires i < |s.rows| && j < |s.rows|
  {
    s.rows[i].call < |s.calls| && s.rows[j].call < |s.calls|
    && s.calls[s.rows[i].call].context == s.calls[s.rows[j].call].context
  }

  /** All rows captured under one context carry one invocation id. */
  ghost predicate OneId(s: State) {
    forall i, j | 0 <= i < |s.rows| && 0 <= j < |s.rows| && SameContext(s, i, j) ::
      s.rows[i].invocation == s.rows[j].invocation
  }

  // No two captures in progress use one context.
  ghost predicate Apart(cfg: Config, s: State) {
    && (!cfg.preemptive ==> forall t, u | t != u :: PcOf(s, t).Idle? || PcOf(s, u).Idle?)
    && (!cfg.sharing ==> forall t, u | t in s.bound && u in s.bound && t != u :: s.bound[t] != s.bound[u])
  }

  predicate TaskSettled(s: State, t: Task)
    requires TaskOk(s, t)
  {
    var pc := PcOf(s, t);
    && (pc.Recording? || pc.Storing? ==> Mine(s, t).invocation == 0)
    && (pc.Emitting? ==> Mine(s, t).invocation == pc.inv)
  }

  predicate RowSettled(s: State, r: Row)
    requires RowOk(s, r)
  {
    s.contexts[s.calls[r.call].context].invocation == r.invocation
  }

  ghost predicate Settled(s: State)
    requires Inv(s)
  {
    && (forall t :: TaskSettled(s, t))
    && (forall k | 0 <= k < |s.rows| :: RowSettled(s, s.rows[k]))
  }

  lemma ApartNext(cfg: Config, s: State, e: Event)
    requires Inv(s) && Apart(cfg, s) && Permits(cfg, s, e)
    ensures Apart(cfg, Next(s, e))
  {
    var s' := Next(s, e);
    assert forall u | u != e.t :: PcOf(s', u) == PcOf(s, u);
    if !cfg.sharing {
      forall t, u | t in s'.bound && u in s'.bound && t != u
        ensures s'.bound[t] != s'.bound[u]
      {
        assert TaskOk(s, t) && TaskOk(s, u);
      }
    }
  }

  lemma TaskSettledNext(cfg: Config, s: State, e: Event, t: Task)
    requires cfg.sharing ==> !cfg.preemptive
    requires Inv(s) && Apart(cfg, s) && Settled(s) && Permits(cfg, s, e) && Inv(Next(s, e))
    ensures TaskSettled(Next(s, e), t)
  {
    assert TaskOk(s, t) && TaskOk(s, e.t) && TaskSettled(s, t) && TaskSettled(s, e.t);
    assert TaskOk(Next(s, e), t);
    hide RowsOf, Belongs, Inv, Settled;
    if t == e.t {
      OwnTaskSettled(s, e);
      hide Next, TaskSettled, Permits;
    } else {
      hide TaskOk;
    }
  }

  lemma OwnTaskSettled(s: State, e: Event)
    requires TaskOk(s, e.t) && TaskSettled(s, e.t) && Enabled(s, e) && TaskOk(Next(s, e), e.t)
    ensures TaskSettled(Next(s, e), e.t)
  {
    hide RowsOf, Belongs;
  }

  lemma RowsSettledNext(cfg: Config, s: State, e: Event, k: nat)
    requires Inv(s) && Settled(s) && Permits(cfg, s, e) && Inv(Next(s, e)) && k < |Next(s, e).rows|
    ensures RowSettled(Next(s, e), Next(s, e).rows[k])
  {
    var s' := Next(s, e);
    assert TaskOk(s, e.t) && TaskSettled(s, e.t);
    assert RowOk(s', s'.rows[k]);
    if k < |s.rows| {
      assert RowOk(s, s.rows[k]) && RowSettled(s, s.rows[k]);
    }
    hide RowsOf, Belongs, Inv, Settled;
  }

  // One invocation per context, so far.
  ghost predicate Calm(cfg: Config, s: State) {
    Inv(s) && Apart(cfg, s) && Settled(s)
  }

  lemma CalmNext(cfg: Config, s: State, e: Event)
    requires cfg.sharing ==> !cfg.preemptive
    requires Calm(cfg, s) && Permits(cfg, s, e)
    ensures Calm(cfg, Next(s, e))
  {
    var s' := Next(s, e);
    InvNext(s, e);
    ApartNext(cfg, s, e);
    hide Inv, Apart, Next, Enabled, TaskSettled, RowSettled;
    forall t
      ensures TaskSettled(s', t)
    {
      TaskSettledNext(cfg, s, e, t);
    }
    forall k | 0 <= k < |s'.rows|
      ensures RowSettled(s', s'.rows[k])
    {
      RowsSettledNext(cfg, s, e, k);
    }
  }

  lemma {:induction false} CalmAfter(cfg: Config, s: State, events: seq<Event>, z: State)
    requires cfg.sharing ==> !cfg.preemptive
    requires Calm(cfg, s) && Leads(Steps(cfg), s, events, z)
    ensures Calm(cfg, z)
    decreases |events|
  {
    hide Calm, Permits, Next;
    if events != [] {
      var t :| Steps(cfg)(s, events[0], t) && Leads(Steps(cfg), t, events[1..], z);
      CalmNext(cfg, s, events[0]);
      CalmAfter(cfg, t, events[1..], z);
    }
  }

  // Two threads that share a context both find it without an invocation.
  function Race(id: Identity): seq<Event> {
    var c := Completed(["hello"], "", []);
    [Instrument(0, id), Spawn(0, 1), Begin(0, c), Begin(1, c), Look(0), Look(1),
     RecordInv(0, true, true), RecordInv(1, true, true),
     Store(0), Read(0), EmitRow(0, true), Store(1), Read(1), EmitRow(1, true)]
  }

  // The race once both calls have begun.
  function Racing(id: Identity, inv: nat, recorded: seq<Invocation>, done0: nat, done1: nat, rows: seq<Row>,
                  pc0: Pc, pc1: Pc): State {
    var items := [Prompt(["hello"])];
    State([Context(id, inv)], map[0 := 0, 1 := 0], recorded,
          [Call(0, 0, items, done0, 0), Call(1, 0, items, done1, 0)], rows, map[0 := pc0, 1 := pc1])
  }

  function RaceInvocation(id: Identity): Invocation {
    Invocation(0, id.tenant, id.agent, id.correlation)
  }

  function RaceRow(id: Identity, c: CallId): Row {
    Row(c, 0, id, c + 1, Prompt(["hello"]))
  }

  function Twice(id: Identity): seq<Invocation> {
    [RaceInvocation(id), RaceInvocation(id)]
  }

  function RaceEnd(id: Identity): State {
    Racing(id, 2, Twice(id), 1, 1, [RaceRow(id, 0), RaceRow(id, 1)], Idle, Idle)
  }

  lemma RaceEmits(id: Identity, z: State)
    requires z == RaceEnd(id)
    ensures From(Step, Racing(id, 1, Twice(id), 1, 0, [RaceRow(id, 0)], Idle, Storing(1, 2)), Race(id), 11, z)
  {
    hide From, RowsOf;
    var e, r0 := Race(id), RaceRow(id, 0);
    var s12 := Racing(id, 2, Twice(id), 1, 0, [r0], Idle, Reading(1));
    var s13 := Racing(id, 2, Twice(id), 1, 0, [r0], Idle, Emitting(1, 2));
    Ends(Step, e, z);
    Before(Step, s13, z, e, 13, z);
    Before(Step, s12, s13, e, 12, z);
    Before(Step, Racing(id, 1, Twice(id), 1, 0, [r0], Idle, Storing(1, 2)), s12, e, 11, z);
  }

  lemma FirstEmits(id: Identity, z: State)
    requires From(Step, Racing(id, 1, Twice(id), 1, 0, [RaceRow(id, 0)], Idle, Storing(1, 2)), Race(id), 11, z)
    ensures From(Step, Racing(id, 1, Twice(id), 0, 0, [], Emitting(0, 1), Storing(1, 2)), Race(id), 10, z)
  {
    hide From, RowsOf;
    Before(Step, Racing(id, 1, Twice(id), 0, 0, [], Emitting(0, 1), Storing(1, 2)),
           Racing(id, 1, Twice(id), 1, 0, [RaceRow(id, 0)], Idle, Storing(1, 2)), Race(id), 10, z);
  }

  lemma FirstStores(id: Identity, z: State)
    requires From(Step, Racing(id, 1, Twice(id), 0, 0, [], Reading(0), Storing(1, 2)), Race(id), 9, z)
    ensures From(Step, Racing(id, 0, Twice(id), 0, 0, [], Storing(0, 1), Storing(1, 2)), Race(id), 8, z)
  {
    hide From, RowsOf;
    Before(Step, Racing(id, 0, Twice(id), 0, 0, [], Storing(0, 1), Storing(1, 2)),
           Racing(id, 1, Twice(id), 0, 0, [], Reading(0), Storing(1, 2)), Race(id), 8, z);
  }

  lemma FirstReads(id: Identity, z: State)
    requires From(Step, Racing(id, 1, Twice(id), 0, 0, [], Emitting(0, 1), Storing(1, 2)), Race(id), 10, z)
    ensures From(Step, Racing(id, 1, Twice(id), 0, 0, [], Reading(0), Storing(1, 2)), Race(id), 9, z)
  {
    hide From, RowsOf;
    Before(Step, Racing(id, 1, Twice(id), 0, 0, [], Reading(0), Storing(1, 2)),
           Racing(id, 1, Twice(id), 0, 0, [], Emitting(0, 1), Storing(1, 2)), Race(id), 9, z);
  }

  lemma RaceRecords(id: Identity, z: State)
    requires From(Step, Racing(id, 0, Twice(id), 0, 0, [], Storing(0, 1), Storing(1, 2)), Race(id), 8, z)
    ensures From(Step, Racing(id, 0, [], 0, 0, [], Recording(0), Recording(1)), Race(id), 6, z)
  {
    hide From, RowsOf;
    var e := Race(id);
    var s7 := Racing(id, 0, [RaceInvocation(id)], 0, 0, [], Storing(0, 1), Recording(1));
    Before(Step, s7, Racing(id, 0, Twice(id), 0, 0, [], Storing(0, 1), Storing(1, 2)), e, 7, z);
    Before(Step, Racing(id, 0, [], 0, 0, [], Recording(0), Recording(1)), s7, e, 6, z);
  }

  lemma RaceLooks(id: Identity, z: State)
    requires From(Step, Racing(id, 0, [], 0, 0, [], Recording(0), Recording(1)), Race(id), 6, z)
    ensures From(Step, Racing(id, 0, [], 0, 0, [], Looking(0), Looking(1)), Race(id), 4, z)
  {
    hide From, RowsOf;
    var e := Race(id);
    var s5 := Racing(id, 0, [], 0, 0, [], Recording(0), Looking(1));
    Before(Step, s5, Racing(id, 0, [], 0, 0, [], Recording(0), Recording(1)), e, 5, z);
    Before(Step, Racing(id, 0, [], 0, 0, [], Looking(0), Looking(1)), s5, e, 4, z);
  }

  // Both tasks share the context and are about to begin.
  function Paired(id: Identity): State {
    State([Context(id, 0)], map[0 := 0, 1 := 0], [], [], [], map[])
  }

  lemma RaceBegins(id: Identity, z: State)
    requires From(Step, Racing(id, 0, [], 0, 0, [], Looking(0), Looking(1)), Race(id), 4, z)
    ensures From(Step, Paired(id), Race(id), 2, z)
  {
    hide From;
    var items := [Prompt(["hello"])];
    assert RowsOf(Completed(["hello"], "", [])) == items;
    hide RowsOf;
    var s3 := State([Context(id, 0)], map[0 := 0, 1 := 0], [], [Call(0, 0, items, 0, 0)], [], map[0 := Looking(0)]);
    Before(Step, s3, Racing(id, 0, [], 0, 0, [], Looking(0), Looking(1)), Race(id), 3, z);
    Before(Step, Paired(id), s3, Race(id), 2, z);
  }

  lemma RacePairs(id: Identity, z: State)
    requires From(Step, Paired(id), Race(id), 2, z)
    ensures From(Step, INITIAL, Race(id), 0, z)
  {
    hide From, RowsOf;
    var s1 := State([Context(id, 0)], map[0 := 0], [], [], [], map[]);
    Before(Step, s1, Paired(id), Race(id), 1, z);
    Before(Step, INITIAL, s1, Race(id), 0, z);
  }

  lemma RaceEndSplits(id: Identity)
    ensures !OneId(RaceEnd(id))
  {
    var z := RaceEnd(id);
    assert SameContext(z, 0, 1) && z.rows[0].invocation != z.rows[1].invocation;
  }

  lemma RaceSplits(id: Identity)
    ensures Leads(Step, INITIAL, Race(id), RaceEnd(id)) && !OneId(RaceEnd(id))
  {
    hide *;
    var z := RaceEnd(id);
    RaceEmits(id, z);
    FirstEmits(id, z);
    FirstReads(id, z);
    FirstStores(id, z);
    RaceRecords(id, z);
    RaceLooks(id, z);
    RaceBegins(id, z);
    RacePairs(id, z);
    FromStart(Step, INITIAL, Race(id), z);
    RaceEndSplits(id);
  }

  lemma InitiallyCalm(cfg: Config)
    ensures Calm(cfg, INITIAL)
  {
  }

  lemma AnythingGoes(run: seq<Event>, z: State)
    requires Leads(Step, INITIAL, run, z)
    ensures Leads(Steps(Config(true, true)), INITIAL, run, z)
  {
    hide Enabled, Next;
    Weaken(Step, Steps(Config(true, true)), INITIAL, run, z);
  }

  /** Every context keeps one invocation id on every possible run exactly when threads cannot
      interleave inside a capture or no two tasks share a context. */
  lemma OneIdIff(cfg: Config)
    ensures (forall events, z | Leads(Steps(cfg), INITIAL, events, z) :: OneId(z)) <==> !cfg.preemptive || !cfg.sharing
  {
    hide Calm, OneId, Leads, Race, RaceEnd;
    if !cfg.preemptive || !cfg.sharing {
      InitiallyCalm(cfg);
      forall events, z | Leads(Steps(cfg), INITIAL, events, z)
        ensures OneId(z)
      {
        CalmAfter(cfg, INITIAL, events, z);
        CalmHasOneId(cfg, z);
      }
    } else {
      var id := Identity("t", "a", "c", []);
      RaceSplits(id);
      AnythingGoes(Race(id), RaceEnd(id));
      assert cfg == Config(true, true);
    }
  }

  lemma CalmHasOneId(cfg: Config, s: State)
    requires Calm(cfg, s)
    ensures OneId(s)
  {
    forall i, j | 0 <= i < |s.rows| && 0 <= j < |s.rows| && SameContext(s, i, j)
      ensures s.rows[i].invocation == s.rows[j].invocation
    {
      assert RowSettled(s, s.rows[i]) && RowSettled(s, s.rows[j]);
    }
  }
}

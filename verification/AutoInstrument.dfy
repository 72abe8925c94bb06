/** The monkey-patch lifecycle (kya/autoinstrument.py): SDK method slots wrapped at most once
    around a saved original, restored on the way out, and what a wrapped call gives its caller. */
module AutoInstrument {
  import opened Common

  // ── Slots, wrappers and the saved originals ────────────────────────

  datatype Sdk = OpenAI | Anthropic | LiteLLM | Unknown(name: string)

  datatype Slot = OpenAICreate | AnthropicCreate | Completion | AsyncCompletion {
    function Owner(): Sdk {
      match this
      case OpenAICreate => OpenAI
      case AnthropicCreate => Anthropic
      case Completion => LiteLLM
      case AsyncCompletion => LiteLLM
    }
  }

  // The storage a recorder writes through: one db_factory or client.
  type Channel = nat

  // What a slot holds: the SDK's own method, or a wrapper closed over its recorder and the method before it.
  datatype Method = Original(slot: Slot) | Wrapper(channel: Channel, inner: Method)

  function Depth(m: Method): nat {
    if m.Original? then 0 else 1 + Depth(m.inner)
  }

  // The attributes of the SDK classes, and `_PATCHED`.
  datatype Patches = Patches(methods: map<Slot, Method>, saved: map<Slot, Method>)

  datatype Import = Found | NotInstalled | Fails

  // `litellm.acompletion` may be missing from an old release; the other attributes always exist.
  predicate WellFormed(p: Patches) {
    && {OpenAICreate, AnthropicCreate, Completion} <= p.methods.Keys
    && p.saved.Keys <= p.methods.Keys
  }

  /** The SDKs whose patch function gets past its import: one that fails outright ends the call. */
  predicate Reached(sdk: Sdk, targets: set<Sdk>, imports: Sdk -> Import) {
    && sdk in targets && imports(sdk).Found?
    && (sdk.Anthropic? || sdk.LiteLLM? ==> !(OpenAI in targets && imports(OpenAI).Fails?))
    && (sdk.LiteLLM? ==> !(Anthropic in targets && imports(Anthropic).Fails?))
    && !sdk.Unknown?
  }

  // A patch function returns at once when its SDK's first slot is in the saved map.
  function Guard(slot: Slot): Slot {
    if slot.AsyncCompletion? then Completion else slot
  }

  function ReachedSdks(targets: set<Sdk>, imports: Sdk -> Import): set<Sdk> {
    set sdk | sdk in {OpenAI, Anthropic, LiteLLM} && Reached(sdk, targets, imports)
  }

  function Plus(done: set<Sdk>, sdk: Sdk, targets: set<Sdk>, imports: Sdk -> Import): set<Sdk> {
    if sdk in targets && imports(sdk).Found? then done + {sdk} else done
  }

  // Which SDKs have been wrapped when the call ends at each of its blocks.
  lemma BlockByBlock(targets: set<Sdk>, imports: Sdk -> Import)
    ensures var first := Plus({}, OpenAI, targets, imports);
            var second := Plus(first, Anthropic, targets, imports);
            var third := Plus(second, LiteLLM, targets, imports);
            && Anthropic !in first && LiteLLM !in second
            && ReachedSdks(targets, imports) ==
               if OpenAI in targets && imports(OpenAI).Fails? then first
               else if Anthropic in targets && imports(Anthropic).Fails? then second
               else third
  {
  }

  predicate GetsWrapped(p: Patches, slot: Slot, sdks: set<Sdk>) {
    slot in p.methods && slot !in p.saved && Guard(slot) !in p.saved && slot.Owner() in sdks
  }

  /** The slots of the given SDKs after their patch functions ran. */
  function Wrapped(p: Patches, sdks: set<Sdk>, channel: Channel): (r: Patches)
    ensures WellFormed(p) ==> WellFormed(r)
  {
    var methods := map s | s in p.methods ::
                     if GetsWrapped(p, s, sdks) then Wrapper(channel, p.methods[s]) else p.methods[s];
    Patches(methods, p.saved + map s | s in p.methods && GetsWrapped(p, s, sdks) :: p.methods[s])
  }

  // What Wrapped does to one slot.
  lemma WrappedAt(p: Patches, sdks: set<Sdk>, channel: Channel, s: Slot)
    requires s in p.methods
    ensures s in Wrapped(p, sdks, channel).methods
    ensures Wrapped(p, sdks, channel).methods[s] ==
            if GetsWrapped(p, s, sdks) then Wrapper(channel, p.methods[s]) else p.methods[s]
    ensures s in Wrapped(p, sdks, channel).saved <==> s in p.saved || GetsWrapped(p, s, sdks)
    ensures GetsWrapped(p, s, sdks) ==> Wrapped(p, sdks, channel).saved[s] == p.methods[s]
    ensures s in p.saved ==> Wrapped(p, sdks, channel).saved[s] == p.saved[s]
  {
  }

  lemma WrappedOneMoreAt(p: Patches, done: set<Sdk>, sdk: Sdk, channel: Channel, s: Slot)
    requires s in p.methods && Guard(s) in p.methods && sdk !in done
    ensures var q := Wrapped(p, done, channel);
            var r, t := Wrapped(q, {sdk}, channel), Wrapped(p, done + {sdk}, channel);
            && s in r.methods && s in t.methods && r.methods[s] == t.methods[s]
            && (s in r.saved <==> s in t.saved) && (s in r.saved ==> r.saved[s] == t.saved[s])
  {
    var q := Wrapped(p, done, channel);
    hide Wrapped;
    WrappedAt(p, done, channel, Guard(s));
    WrappedAt(p, done, channel, s);
    WrappedAt(q, {sdk}, channel, s);
    WrappedAt(p, done + {sdk}, channel, s);
  }

  lemma WrappedKeys(p: Patches, sdks: set<Sdk>, channel: Channel)
    requires WellFormed(p)
    ensures Wrapped(p, sdks, channel).methods.Keys == p.methods.Keys
    ensures Wrapped(p, sdks, channel).saved.Keys <= p.methods.Keys
  {
  }

  lemma WrappedOneMore(p: Patches, done: set<Sdk>, sdk: Sdk, channel: Channel)
    requires WellFormed(p) && sdk !in done
    ensures Wrapped(Wrapped(p, done, channel), {sdk}, channel) == Wrapped(p, done + {sdk}, channel)
  {
    hide Wrapped, WellFormed;
    var q := Wrapped(p, done, channel);
    var r, t := Wrapped(q, {sdk}, channel), Wrapped(p, done + {sdk}, channel);
    WrappedKeys(p, done, channel);
    WrappedKeys(q, {sdk}, channel);
    WrappedKeys(p, done + {sdk}, channel);
    forall s | s in p.methods
      ensures r.methods[s] == t.methods[s]
      ensures s in r.saved <==> s in t.saved
      ensures s in r.saved ==> r.saved[s] == t.saved[s]
    {
      GuardIsThere(p, s);
      WrappedOneMoreAt(p, done, sdk, channel, s);
    }
    SameMap(r.methods, t.methods);
    assert r.saved.Keys == t.saved.Keys;
    SameMap(r.saved, t.saved);
  }

  lemma GuardIsThere(p: Patches, s: Slot)
    requires WellFormed(p) && s in p.methods
    ensures Guard(s) in p.methods
  {
  }

  lemma WrappedNone(p: Patches, channel: Channel)
    ensures Wrapped(p, {}, channel) == p
  {
    assert p.saved + map[] == p.saved;
  }

  // Wrapping one slot.
  function SlotWrapped(p: Patches, slot: Slot, channel: Channel): Patches
    requires slot in p.methods
  {
    Patches(p.methods[slot := Wrapper(channel, p.methods[slot])], p.saved[slot := p.methods[slot]])
  }

  // The SDKs with a single method.
  lemma WrappedSingle(p: Patches, sdk: Sdk, channel: Channel)
    requires WellFormed(p)
    ensures sdk.OpenAI? || sdk.Anthropic? ==>
      var slot := if sdk.OpenAI? then OpenAICreate else AnthropicCreate;
      Wrapped(p, {sdk}, channel) == if slot in p.saved then p else SlotWrapped(p, slot, channel)
  {
    if sdk.OpenAI? || sdk.Anthropic? {
      var slot := if sdk.OpenAI? then OpenAICreate else AnthropicCreate;
      var r := Wrapped(p, {sdk}, channel);
      forall s | s in p.methods
        ensures GetsWrapped(p, s, {sdk}) <==> s == slot && slot !in p.saved
      {
      }
      if slot in p.saved {
        assert r.methods == p.methods;
        assert r.saved == p.saved;
      } else {
        assert r.methods == p.methods[slot := Wrapper(channel, p.methods[slot])];
        assert r.saved == p.saved[slot := p.methods[slot]];
      }
    }
  }

  // LiteLLM's second slot may be missing, and may not be wrapped without the first.
  lemma WrappedLiteLLM(p: Patches, channel: Channel)
    requires WellFormed(p)
    ensures Completion in p.saved ==> Wrapped(p, {LiteLLM}, channel) == p
    ensures Completion !in p.saved ==>
              var q := SlotWrapped(p, Completion, channel);
              Wrapped(p, {LiteLLM}, channel) ==
              if AsyncCompletion in q.methods && AsyncCompletion !in q.saved
              then SlotWrapped(q, AsyncCompletion, channel) else q
  {
    var r := Wrapped(p, {LiteLLM}, channel);
    if Completion in p.saved {
      assert r.methods == p.methods && r.saved == p.saved;
    } else {
      var q := SlotWrapped(p, Completion, channel);
      var t := if AsyncCompletion in q.methods && AsyncCompletion !in q.saved
               then SlotWrapped(q, AsyncCompletion, channel) else q;
      assert r.methods == t.methods;
      assert r.saved == t.saved;
    }
  }

  /** One autoinstrument() call. */
  function Instrumented(p: Patches, targets: set<Sdk>, imports: Sdk -> Import, channel: Channel): Patches {
    Wrapped(p, ReachedSdks(targets, imports), channel)
  }

  // The slot after a call, if its SDK is patched or not.
  predicate SlotAfter(p: Patches, q: Patches, s: Slot, patched: bool, channel: Channel) {
    s in p.methods ==>
      if patched && s !in p.saved then
        s in q.methods && q.methods[s] == Wrapper(channel, p.methods[s]) && s in q.saved && q.saved[s] == p.methods[s]
      else
        s in q.methods && q.methods[s] == p.methods[s] && (s in q.saved <==> s in p.saved)
          && (s in p.saved ==> q.saved[s] == p.saved[s])
  }

  /** What a call does slot by slot: the SDKs asked for are patched in the order OpenAI, Anthropic,
      LiteLLM as far as they are installed, up to the first whose import fails otherwise; a slot in the
      saved map stays as it is, and LiteLLM's awaited one too when its other one is there. */
  lemma InstrumentedSlots(p: Patches, targets: set<Sdk>, imports: Sdk -> Import, channel: Channel)
    requires WellFormed(p)
    ensures var q := Instrumented(p, targets, imports, channel);
            var first := OpenAI !in targets || !imports(OpenAI).Fails?;
            var second := first && (Anthropic !in targets || !imports(Anthropic).Fails?);
            && q.methods.Keys == p.methods.Keys
            && SlotAfter(p, q, OpenAICreate, OpenAI in targets && imports(OpenAI).Found?, channel)
            && SlotAfter(p, q, AnthropicCreate, first && Anthropic in targets && imports(Anthropic).Found?, channel)
            && SlotAfter(p, q, Completion, second && LiteLLM in targets && imports(LiteLLM).Found?, channel)
            && SlotAfter(p, q, AsyncCompletion,
                         second && LiteLLM in targets && imports(LiteLLM).Found? && Completion !in p.saved, channel)
  {
    var reached := ReachedSdks(targets, imports);
    assert Instrumented(p, targets, imports, channel) == Wrapped(p, reached, channel);
    WrappedKeys(p, reached, channel);
    hide Wrapped, WellFormed, Instrumented, SlotAfter;
    WrappedSlot(p, reached, channel, OpenAICreate);
    WrappedSlot(p, reached, channel, AnthropicCreate);
    WrappedSlot(p, reached, channel, Completion);
    WrappedSlot(p, reached, channel, AsyncCompletion);
  }

  lemma WrappedSlot(p: Patches, reached: set<Sdk>, channel: Channel, s: Slot)
    requires WellFormed(p)
    ensures var patched := s.Owner() in reached && (s.AsyncCompletion? ==> Completion !in p.saved);
            SlotAfter(p, Wrapped(p, reached, channel), s, patched, channel)
  {
    if s in p.methods {
      WrappedAt(p, reached, channel, s);
    }
  }

  /** One deinstrument() call whose restores fail on the given slots. */
  function Restored(p: Patches, failing: set<Slot>): (r: Patches)
    ensures WellFormed(p) ==> WellFormed(r)
  {
    Patches(map s | s in p.methods :: if s in p.saved && s !in failing then p.saved[s] else p.methods[s], map[])
  }

  // ── The process-wide state ─────────────────────────────────────────

  type Task = nat

  datatype Context = Context(tenant: string, agent: string, correlation: string, dataClasses: seq<string>)

  datatype Outcome =
    | Rejected                          // ValueError, nothing touched
    | ImportFailed(sdk: Sdk)            // an import raised something other than ImportError
    | Reported(patched: map<Sdk, bool>)

  // True for the targets that were importable.
  function Report(targets: set<Sdk>, imports: Sdk -> Import): map<Sdk, bool> {
    map sdk | sdk in targets && !sdk.Unknown? :: imports(sdk).Found?
  }

  predicate AnyFails(targets: set<Sdk>, imports: Sdk -> Import) {
    exists sdk :: sdk in targets && !sdk.Unknown? && imports(sdk).Fails?
  }

  // The report after each block.
  function Noted(report: map<Sdk, bool>, sdk: Sdk, targets: set<Sdk>, imports: Sdk -> Import): map<Sdk, bool> {
    if sdk in targets then report[sdk := imports(sdk).Found?] else report
  }

  lemma ReportBlockByBlock(targets: set<Sdk>, imports: Sdk -> Import)
    ensures Report(targets, imports) ==
            Noted(Noted(Noted(map[], OpenAI, targets, imports), Anthropic, targets, imports), LiteLLM, targets, imports)
    ensures AnyFails(targets, imports) <==>
            exists sdk :: sdk in {OpenAI, Anthropic, LiteLLM} && sdk in targets && imports(sdk).Fails?
  {
  }

  // `set(sdks or ["openai", "anthropic", "litellm"])`
  function Targets(sdks: seq<Sdk>): set<Sdk> {
    if sdks == [] then {OpenAI, Anthropic, LiteLLM} else set s | s in sdks
  }

  lemma Wanted(sdks: seq<Sdk>, imports: Sdk -> Import)
    ensures var report := Report(Targets(sdks), imports);
            && (forall sdk :: sdk in report <==> !sdk.Unknown? && (sdks == [] || sdk in sdks))
            && forall sdk | sdk in report :: report[sdk] <==> imports(sdk).Found?
  {
  }

  class Process {
    var methods: map<Slot, Method>
    var saved: map<Slot, Method>
    var contexts: map<Task, Context>

    ghost function State(): Patches
      reads this
    {
      Patches(methods, saved)
    }

    // A process in which nothing is patched.
    constructor (hasAsync: bool)
      ensures WellFormed(State()) && saved == map[] && contexts == map[]
      ensures AsyncCompletion in methods <==> hasAsync
      ensures forall s | s in methods :: methods[s] == Original(s)
    {
      methods := map[OpenAICreate := Original(OpenAICreate), AnthropicCreate := Original(AnthropicCreate),
                     Completion := Original(Completion)]
                 + if hasAsync then map[AsyncCompletion := Original(AsyncCompletion)] else map[];
      saved := map[];
      contexts := map[];
    }

    // _patch_openai and _patch_anthropic past their import.
    method PatchSlot(slot: Slot, channel: Channel)
      requires WellFormed(State()) && slot in methods
      modifies this`methods, this`saved
      ensures WellFormed(State()) && methods.Keys == old(methods).Keys
      ensures slot in old(saved) ==> State() == old(State())
      ensures slot !in old(saved) ==> State() == SlotWrapped(old(State()), slot, channel)
    {
      if slot in saved {
        return;
      }
      var orig := methods[slot];
      methods := methods[slot := Wrapper(channel, orig)];
      saved := saved[slot := orig];
    }

    method PatchLiteLLM(channel: Channel)
      requires WellFormed(State())
      modifies this`methods, this`saved
      ensures WellFormed(State()) && State() == Wrapped(old(State()), {LiteLLM}, channel)
    {
      WrappedLiteLLM(State(), channel);
      hide Wrapped;
      if Completion in saved {
        return;
      }
      PatchSlot(Completion, channel);
      if AsyncCompletion in methods && AsyncCompletion !in saved {
        PatchSlot(AsyncCompletion, channel);
      }
    }

    // Dispatches to the SDK's patch function past its import.
    method PatchSdk(sdk: Sdk, channel: Channel)
      requires WellFormed(State()) && !sdk.Unknown?
      modifies this`methods, this`saved
      ensures WellFormed(State()) && State() == Wrapped(old(State()), {sdk}, channel)
    {
      WrappedSingle(State(), sdk, channel);
      hide Wrapped;
      if sdk.OpenAI? {
        PatchSlot(OpenAICreate, channel);
      } else if sdk.Anthropic? {
        PatchSlot(AnthropicCreate, channel);
      } else {
        PatchLiteLLM(channel);
      }
    }

    // One `if sdk in targets` block; `done` are the SDKs already wrapped in this call.
    method Block(sdk: Sdk, targets: set<Sdk>, imports: Sdk -> Import, channel: Channel, report: map<Sdk, bool>,
                 ghost before: Patches, ghost done: set<Sdk>) returns (failed: bool, patched: map<Sdk, bool>)
      requires WellFormed(State()) && WellFormed(before) && !sdk.Unknown?
      requires State() == Wrapped(before, done, channel) && sdk !in done
      modifies this`methods, this`saved
      ensures WellFormed(State())
      ensures failed <==> sdk in targets && imports(sdk).Fails?
      ensures State() == Wrapped(before, Plus(done, sdk, targets, imports), channel)
      ensures !failed ==> patched == Noted(report, sdk, targets, imports)
    {
      hide Wrapped, WellFormed;
      failed, patched := false, report;
      if sdk in targets {
        if imports(sdk).Fails? {
          failed := true;
          return;
        }
        if imports(sdk).Found? {
          WrappedOneMore(before, done, sdk, channel);
          PatchSdk(sdk, channel);
        }
        patched := patched[sdk := imports(sdk).Found?];
      }
    }

    method PatchTargets(targets: set<Sdk>, imports: Sdk -> Import, channel: Channel) returns (r: Outcome)
      requires WellFormed(State())
      modifies this`methods, this`saved
      ensures WellFormed(State()) && State() == Instrumented(old(State()), targets, imports, channel)
      ensures !r.Rejected?
      ensures r.ImportFailed? <==> AnyFails(targets, imports)
      ensures r.ImportFailed? ==> r.sdk in targets && imports(r.sdk).Fails?
      ensures r.Reported? ==> r.patched == Report(targets, imports)
    {
      ghost var before := State();
      WrappedNone(before, channel);
      BlockByBlock(targets, imports);
      ReportBlockByBlock(targets, imports);
      hide Wrapped, WellFormed, Reached, ReachedSdks, Plus, Report, Noted, AnyFails;
      ghost var first := Plus({}, OpenAI, targets, imports);
      ghost var second := Plus(first, Anthropic, targets, imports);
      var failed, patched := Block(OpenAI, targets, imports, channel, map[], before, {});
      if failed {
        return ImportFailed(OpenAI);
      }
      failed, patched := Block(Anthropic, targets, imports, channel, patched, before, first);
      if failed {
        return ImportFailed(Anthropic);
      }
      failed, patched := Block(LiteLLM, targets, imports, channel, patched, before, second);
      if failed {
        return ImportFailed(LiteLLM);
      }
      return Reported(patched);
    }

    /** Binds the caller's context, then patches; the lock makes the patching one step. */
    method Autoinstrument(task: Task, dbFactory: Option<Channel>, client: Option<Channel>, context: Context,
                          freshId: string, sdks: seq<Sdk>, imports: Sdk -> Import) returns (r: Outcome)
      requires WellFormed(State())
      modifies this
      ensures WellFormed(State())
      ensures r.Rejected? <==> (dbFactory.Some? <==> client.Some?) || context.tenant == "" || context.agent == ""
      ensures r.Rejected? ==> State() == old(State()) && contexts == old(contexts)
      ensures !r.Rejected? ==>
        && contexts == old(contexts)[task := if context.correlation == "" then context.(correlation := freshId)
                                             else context]
        && State() == Instrumented(old(State()), Targets(sdks), imports,
                                   if dbFactory.Some? then dbFactory.value else client.value)
      ensures !r.Rejected? ==>
        (r.ImportFailed? <==> AnyFails(Targets(sdks), imports))
      ensures r.Reported? ==>
        && (forall sdk :: sdk in r.patched <==> !sdk.Unknown? && (sdks == [] || sdk in sdks))
        && forall sdk | sdk in r.patched :: r.patched[sdk] <==> imports(sdk).Found?
    {
      Wanted(sdks, imports);
      hide WellFormed, Instrumented, Targets, Report;
      if dbFactory.Some? == client.Some? {
        return Rejected;
      }
      if context.tenant == "" || context.agent == "" {
        return Rejected;
      }
      var channel := if dbFactory.Some? then dbFactory.value else client.value;
      contexts := contexts[task := if context.correlation == "" then context.(correlation := freshId) else context];
      r := PatchTargets(Targets(sdks), imports, channel);
    }

    // The restore loop; the saved map still holds every original.
    method RestoreSlots(failing: set<Slot>)
      requires saved.Keys <= methods.Keys
      modifies this`methods
      ensures methods == Restored(old(State()), failing).methods
    {
      var left := saved.Keys;
      while left != {}
        invariant left <= saved.Keys && methods.Keys == old(methods).Keys
        invariant forall s | s in methods ::
            methods[s] == if s in saved && s !in failing && s !in left then saved[s] else old(methods)[s]
        decreases |left|
      {
        var key :| key in left;
        if key !in failing {
          methods := methods[key := saved[key]];
        }
        left := left - {key};
      }
    }

    /** Restores what it can, forgets every saved original, and drops the caller's context. */
    method Deinstrument(task: Task, failing: set<Slot>)
      requires WellFormed(State())
      modifies this
      ensures WellFormed(State()) && State() == Restored(old(State()), failing)
      ensures contexts == old(contexts) - {task}
    {
      RestoreSlots(failing);
      saved := map[];
      contexts := contexts - {task};
    }
  }

  // ── Any sequence of calls ──────────────────────────────────────────

  datatype Op = Auto(targets: set<Sdk>, imports: Sdk -> Import, channel: Channel) | Deinst(failing: set<Slot>)

  function Apply(p: Patches, op: Op): (r: Patches)
    ensures WellFormed(p) ==> WellFormed(r)
    ensures r.methods.Keys == p.methods.Keys
  {
    match op
    case Auto(targets, imports, channel) => Instrumented(p, targets, imports, channel)
    case Deinst(failing) => Restored(p, failing)
  }

  function Run(p: Patches, ops: seq<Op>): (r: Patches)
    ensures r.methods.Keys == p.methods.Keys
    decreases |ops|
  {
    if ops == [] then p else Run(Apply(p, ops[0]), ops[1..])
  }

  predicate SoundSlot(p: Patches, s: Slot)
    requires s in p.methods
  {
    if s in p.saved then p.saved[s] == Original(s) && p.methods[s].Wrapper? && p.methods[s].inner == Original(s)
    else p.methods[s] == Original(s)
  }

  /** Every slot is the original or exactly one wrapper around it; the saved map holds the true
      original of exactly the wrapped slots; LiteLLM's two slots are wrapped together. */
  predicate Sound(p: Patches) {
    && WellFormed(p)
    && (forall s | s in p.methods :: SoundSlot(p, s))
    && (AsyncCompletion in p.methods ==> (AsyncCompletion in p.saved <==> Completion in p.saved))
  }

  // No restore of a patched slot ever fails.
  ghost predicate RestoresSucceed(p: Patches, ops: seq<Op>)
    decreases |ops|
  {
    ops != [] ==>
      && (ops[0].Deinst? ==> forall s | s in ops[0].failing :: s !in p.saved)
      && RestoresSucceed(Apply(p, ops[0]), ops[1..])
  }

  ghost predicate AlwaysSound(p: Patches, ops: seq<Op>)
    decreases |ops|
  {
    Sound(p) && (ops == [] || AlwaysSound(Apply(p, ops[0]), ops[1..]))
  }

  lemma InstrumentingKeepsSound(p: Patches, sdks: set<Sdk>, channel: Channel)
    requires Sound(p)
    ensures Sound(Wrapped(p, sdks, channel))
  {
    var r := Wrapped(p, sdks, channel);
    forall s | s in p.methods
      ensures SoundSlot(r, s)
    {
      assert SoundSlot(p, s);
      WrappedAt(p, sdks, channel, s);
    }
    if AsyncCompletion in p.methods {
      WrappedAt(p, sdks, channel, AsyncCompletion);
      WrappedAt(p, sdks, channel, Completion);
    }
  }

  lemma RestoringKeepsSoundIff(p: Patches, failing: set<Slot>)
    requires Sound(p)
    ensures Sound(Restored(p, failing)) <==> forall s | s in failing :: s !in p.saved
  {
    var r := Restored(p, failing);
    forall s | s in p.methods
      ensures SoundSlot(r, s) <==> s !in failing || s !in p.saved
    {
      assert SoundSlot(p, s);
    }
    if forall s | s in failing :: s !in p.saved {
      assert Sound(r);
    } else {
      var s :| s in failing && s in p.saved;
      assert !SoundSlot(r, s);
    }
  }

  /** Over any sequence of calls the slots stay sound exactly as long as no restore of a patched
      slot fails: deinstrument() clears the saved map whether or not its restores succeeded. */
  lemma {:induction false} AlwaysSoundIff(p: Patches, ops: seq<Op>)
    requires Sound(p)
    ensures AlwaysSound(p, ops) <==> RestoresSucceed(p, ops)
    decreases |ops|
  {
    hide Sound, Wrapped, Restored, ReachedSdks;
    if ops != [] {
      var q := Apply(p, ops[0]);
      match ops[0] {
        case Auto(targets, imports, channel) =>
          InstrumentingKeepsSound(p, ReachedSdks(targets, imports), channel);
        case Deinst(failing) =>
          RestoringKeepsSoundIff(p, failing);
      }
      if Sound(q) {
        AlwaysSoundIff(q, ops[1..]);
      }
    }
  }

  // ── Exactly how many wrappers a slot carries ───────────────────────

  // The deinstrument() calls that failed to restore the slot while it was patched.
  function FailedRestores(p: Patches, ops: seq<Op>, s: Slot): nat
    decreases |ops|
  {
    if ops == [] then 0
    else (if ops[0].Deinst? && s in ops[0].failing && s in p.saved then 1 else 0)
         + FailedRestores(Apply(p, ops[0]), ops[1..], s)
  }

  function Core(m: Method): Slot {
    if m.Original? then m.slot else Core(m.inner)
  }

  // The slot carries `stuck` wrappers nothing can remove, and one more while it is patched.
  predicate Layered(p: Patches, s: Slot, stuck: nat) {
    && s in p.methods && Core(p.methods[s]) == s
    && Depth(p.methods[s]) == stuck + (if s in p.saved then 1 else 0)
    && (s in p.saved ==> p.methods[s].Wrapper? && p.methods[s].inner == p.saved[s])
  }

  lemma LayersNext(p: Patches, op: Op, s: Slot, stuck: nat)
    requires Layered(p, s, stuck)
    ensures Layered(Apply(p, op), s, stuck + if op.Deinst? && s in op.failing && s in p.saved then 1 else 0)
  {
    match op {
      case Auto(targets, imports, channel) =>
        WrappedAt(p, ReachedSdks(targets, imports), channel, s);
      case Deinst(failing) =>
    }
  }

  lemma {:induction false} LayersAfter(p: Patches, ops: seq<Op>, s: Slot, stuck: nat)
    requires Layered(p, s, stuck)
    ensures Layered(Run(p, ops), s, stuck + FailedRestores(p, ops, s))
    decreases |ops|
  {
    hide Layered, Apply;
    if ops != [] {
      LayersNext(p, ops[0], s, stuck);
      LayersAfter(Apply(p, ops[0]), ops[1..], s,
                  stuck + if ops[0].Deinst? && s in ops[0].failing && s in p.saved then 1 else 0);
    }
  }

  lemma BareIff(m: Method, s: Slot)
    ensures Depth(m) == 0 && Core(m) == s <==> m == Original(s)
  {
  }

  ghost predicate Untouched(p: Patches) {
    WellFormed(p) && p.saved == map[] && forall s | s in p.methods :: p.methods[s] == Original(s)
  }

  /** Each failed restore leaves one wrapper for good: after any run a slot carries exactly one
      wrapper per failed restore and one more while patched, so a call is captured that often,
      and the original is back exactly when none failed and the slot is not patched. */
  lemma WrapperCount(p: Patches, ops: seq<Op>, s: Slot)
    requires Untouched(p) && s in p.methods
    ensures var r := Run(p, ops);
            && Depth(r.methods[s]) == FailedRestores(p, ops, s) + (if s in r.saved then 1 else 0)
            && (r.methods[s] == Original(s) <==> FailedRestores(p, ops, s) == 0 && s !in r.saved)
  {
    hide FailedRestores, Run, Core, Depth;
    BareIff(p.methods[s], s);
    LayersAfter(p, ops, s, 0);
    BareIff(Run(p, ops).methods[s], s);
  }

  /** Later calls do not move a patched slot to their own channel: until a deinstrument() every
      capture goes through the recorder of the call that patched the slot. */
  lemma {:induction false} FirstChannelWins(p: Patches, ops: seq<Op>, s: Slot)
    requires s in p.methods && s in p.saved && forall k | 0 <= k < |ops| :: ops[k].Auto?
    ensures Run(p, ops).methods[s] == p.methods[s] && s in Run(p, ops).saved && Run(p, ops).saved[s] == p.saved[s]
    decreases |ops|
  {
    hide Wrapped;
    if ops != [] {
      WrappedAt(p, ReachedSdks(ops[0].targets, ops[0].imports), ops[0].channel, s);
      FirstChannelWins(Apply(p, ops[0]), ops[1..], s);
    }
  }

  /** On sound slots, a call whose SDK is reached captures through its own channel afterwards exactly
      when the slot was free, or already captured through that channel. */
  lemma OwnChannelIff(p: Patches, s: Slot, targets: set<Sdk>, imports: Sdk -> Import, channel: Channel)
    requires Sound(p) && s in p.methods && Reached(s.Owner(), targets, imports)
    ensures Instrumented(p, targets, imports, channel).methods[s] == Wrapper(channel, Original(s)) <==>
            s !in p.saved || p.methods[s].channel == channel
  {
    assert SoundSlot(p, s);
    WrappedAt(p, ReachedSdks(targets, imports), channel, s);
    hide Wrapped;
  }

  // ── What a wrapped call gives its caller ───────────────────────────

  // Fatal: a BaseException that is not an Exception, such as KeyboardInterrupt.
  datatype Failure = Failure(fatal: bool, importError: bool, id: nat)

  type Response = Option<nat>   // None is Python's None

  datatype Result = Returned(response: Response) | Raised(failure: Failure)

  // What goes wrong inside one wrapper during one call: in testing the messages argument for truth,
  // in the evidence capture (of a response or of an error), in `import litellm`, in the cost capture.
  datatype Trouble = Trouble(messages: Option<Failure>, capture: Option<Failure>, pricing: Option<Failure>,
                             cost: Option<Failure>)

  // The result of a call, and whether the SDK's own method ran.
  datatype Made = Made(result: Result, reached: bool)

  predicate Fatal(f: Option<Failure>) {
    f.Some? && f.value.fatal
  }

  // `except Exception`: the capture swallows what is no BaseException outside Exception.
  function AfterCapture(r: Result, t: Trouble): Result {
    if r.Raised? && r.failure.fatal then r
    else if Fatal(t.capture) then Raised(t.capture.value)
    else r
  }

  // _capture_cost, only for a response that is not None.
  function AfterCost(r: Result, t: Trouble): Result {
    if r.Raised? || r.response.None? then r
    else if t.pricing.Some? then (if t.pricing.value.importError then r else Raised(t.pricing.value))
    else if Fatal(t.cost) then Raised(t.cost.value)
    else r
  }

  /** A call through a slot, one trouble per wrapper, outermost first: the messages are tested before
      the try, then the method underneath is called, then come the captures. */
  function Call(m: Method, original: Result, troubles: seq<Trouble>): Made
    requires |troubles| == Depth(m)
  {
    if m.Original? then Made(original, true)
    else if troubles[0].messages.Some? then Made(Raised(troubles[0].messages.value), false)
    else
      var inner := Call(m.inner, original, troubles[1..]);
      var captured := AfterCapture(inner.result, troubles[0]);
      Made(if inner.result.Returned? then AfterCost(captured, troubles[0]) else captured, inner.reached)
  }

  predicate Harmless(t: Trouble) {
    && t.messages.None?
    && !Fatal(t.capture)
    && (if t.pricing.Some? then t.pricing.value.importError else !Fatal(t.cost))
  }

  lemma {:induction false} HarmlessIsTransparent(m: Method, original: Result, troubles: seq<Trouble>)
    requires |troubles| == Depth(m) && forall k | 0 <= k < |troubles| :: Harmless(troubles[k])
    ensures Call(m, original, troubles) == Made(original, true)
  {
    if m.Wrapper? {
      HarmlessIsTransparent(m.inner, original, troubles[1..]);
    }
  }

  lemma {:induction false} HarmIsSeen(m: Method, troubles: seq<Trouble>, response: Response)
    requires |troubles| == Depth(m) && response.Some?
    requires !forall k | 0 <= k < |troubles| :: Harmless(troubles[k])
    ensures Call(m, Returned(response), troubles).result.Raised?
  {
    if m.Wrapper? {
      var inner := troubles[1..];
      var k :| 0 <= k < |troubles| && !Harmless(troubles[k]);
      assert k > 0 ==> inner[k - 1] == troubles[k];
      if forall j | 0 <= j < |inner| :: Harmless(inner[j]) {
        HarmlessIsTransparent(m.inner, Returned(response), inner);
      } else {
        HarmIsSeen(m.inner, inner, response);
      }
    }
  }

  /** However often a slot is wrapped, the SDK is called and its result or exception comes back as it
      is, whatever it is, if and only if no wrapper trips over testing the messages for truth, none
      is hit by a BaseException outside Exception, and importing litellm for its prices fails, if at
      all, with ImportError. */
  lemma TransparentIff(m: Method, troubles: seq<Trouble>)
    requires |troubles| == Depth(m)
    ensures (forall original :: Call(m, original, troubles) == Made(original, true)) <==>
            forall k | 0 <= k < |troubles| :: Harmless(troubles[k])
  {
    if forall k | 0 <= k < |troubles| :: Harmless(troubles[k]) {
      forall original
        ensures Call(m, original, troubles) == Made(original, true)
      {
        HarmlessIsTransparent(m, original, troubles);
      }
    } else {
      HarmIsSeen(m, troubles, Some(0));
      assert Call(m, Returned(Some(0)), troubles) != Made(Returned(Some(0)), true);
    }
  }

  // Some wrapper trips over the messages.
  ghost predicate MessagesRaise(troubles: seq<Trouble>) {
    exists k :: 0 <= k < |troubles| && troubles[k].messages.Some?
  }

  /** The SDK is left uncalled exactly when that happens. */
  lemma {:induction false} ReachedIff(m: Method, original: Result, troubles: seq<Trouble>)
    requires |troubles| == Depth(m)
    ensures Call(m, original, troubles).reached <==> !MessagesRaise(troubles)
  {
    if m.Wrapper? {
      var inner := troubles[1..];
      ReachedIff(m.inner, original, inner);
      assert forall k | 0 <= k < |inner| :: inner[k] == troubles[k + 1];
      if troubles[0].messages.None? && MessagesRaise(troubles) {
        var k :| 0 <= k < |troubles| && troubles[k].messages.Some?;
        assert inner[k - 1] == troubles[k];
      }
    }
  }
}

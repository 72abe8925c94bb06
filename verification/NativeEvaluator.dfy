/** The default policy evaluator (kya/_native_evaluator.py): three deny rules tried in order, a
    fail-closed frame around them, and a fast path that must not skip a rule that could fire. */
module NativeEvaluator {
  import opened Common

  // ── Inputs ─────────────────────────────────────────────────────────

  // A value in the attribute bag or in a weight table.
  datatype Attr = Absent | Int(n: int) | Str(s: string) | Other(id: int)

  datatype Input = Input(tenant: string, kind: string, principal: string, action: string, attributes: map<string, Attr>)

  function Attribute(inp: Input, name: string): Attr {
    if name in inp.attributes then inp.attributes[name] else Absent
  }

  datatype Float = NaN | Infinite(positive: bool) | Finite(r: real)

  predicate AtMostZero(f: Float) {
    match f
    case NaN => false
    case Infinite(positive) => !positive
    case Finite(r) => r <= 0.0
  }

  datatype Error = Error(kind: string, text: string)

  // Anything the evaluator composes can return or raise.
  datatype Call<+T> = Gives(value: T) | Throws(error: Error)

  // float(x) and int(x): TypeError and ValueError are expected, others such as OverflowError are not.
  datatype Conversion<+T> = Converted(value: T) | Unsuitable | Unexpected(error: Error)

  // Python's own conversions and truth value, for what is not an int or a string here.
  datatype Python = Python(float: Attr -> Conversion<Float>, intOther: int -> Conversion<int>,
                           intStr: string -> Conversion<int>, truthy: int -> bool)

  function ToInt(py: Python, a: Attr): Conversion<int> {
    match a
    case Int(n) => Converted(n)
    case Str(s) => py.intStr(s)
    case Other(id) => py.intOther(id)
    case Absent => Unsuitable
  }

  function Truthy(py: Python, a: Attr): bool {
    match a
    case Absent => false
    case Int(n) => n != 0
    case Str(s) => s != ""
    case Other(id) => py.truthy(id)
  }

  // ── What the evaluator composes, with arbitrary behaviour ──────────

  type Session = nat

  // known_scopes(): the import or the call can fail.
  datatype Registry = Unavailable | Scopes(names: set<string>)

  datatype BudgetRequest = BudgetRequest(tenant: string, scopeKey: Attr, scope: Attr, cost: Float)

  // should_refuse's answer; reading a field of a malformed one raises.
  datatype Reply = Decision(verdict: string, reason: string, current: real, threshold: real) | Malformed(error: Error)

  datatype Weights = Table(weights: map<string, Attr>) | NotATable(error: Error)

  datatype World = World(
    session: Call<Option<Session>>,
    hashImports: bool, effectiveHash: (Session, string) -> Call<string>, emptyHash: Call<string>,
    budgetImports: bool, shouldRefuse: (Session, BudgetRequest) -> Call<Reply>,
    registry: Registry, effectiveWeights: (Session, string, string) -> Call<Weights>)

  // ── Verdicts ───────────────────────────────────────────────────────

  datatype Evidence =
    | NoEvidence
    | BudgetEvidence(reason: string, current: real, threshold: real)
    | WeightEvidence(scope: string, key: string, value: int, limit: int)
    | RestrictedEvidence(kind: string)
    | ErrorEvidence(exceptionType: string)

  datatype Verdict = Verdict(verdict: string, reasons: seq<string>, evidence: Evidence, policyHash: string,
                             evaluator: string, signal: string)

  const HASH_UNAVAILABLE := "policy-hash-unavailable"
  const HARD_DENY := 100
  const NAME := "native"

  datatype RuleResult = Passes | Fires(verdict: Verdict) | Breaks(error: Error)

  function Db(w: World): Option<Session> {
    if w.session.Gives? then w.session.value else None
  }

  function PolicyHash(w: World, tenant: string): string {
    if !w.hashImports then HASH_UNAVAILABLE
    else if Db(w).Some? && w.effectiveHash(Db(w).value, tenant).Gives? then w.effectiveHash(Db(w).value, tenant).value
    else if w.emptyHash.Gives? then w.emptyHash.value
    else HASH_UNAVAILABLE
  }

  // ── The rules ──────────────────────────────────────────────────────

  function RequestFor(py: Python, inp: Input, cost: Float): BudgetRequest {
    var key := Attribute(inp, "budget_scope_key");
    var agent := inp.kind == "agent";
    BudgetRequest(
      inp.tenant,
      if Truthy(py, key) then key else if agent then Str(inp.principal) else Str("*"),
      if "budget_scope" in inp.attributes then inp.attributes["budget_scope"]
      else if agent then Str("agent") else Str("tenant"),
      cost)
  }

  function CheckBudget(py: Python, w: World, inp: Input): RuleResult {
    var cost := Attribute(inp, "estimated_cost_usd");
    if cost.Absent? then Passes
    else
      match py.float(cost)
      case Unsuitable => Passes
      case Unexpected(e) => Breaks(e)
      case Converted(usd) =>
        if AtMostZero(usd) || Db(w).None? || !w.budgetImports then Passes
        else
          match w.shouldRefuse(Db(w).value, RequestFor(py, inp, usd))
          case Throws(_) => Passes
          case Gives(Malformed(e)) => Breaks(e)
          case Gives(Decision(verdict, reason, current, threshold)) =>
            if verdict != "refuse" then Passes
            else Fires(Verdict("deny", ["budget_exceeded"], BudgetEvidence(reason, current, threshold), "", NAME,
                               "budget_exceeded"))
  }

  function CheckTenantWeight(py: Python, w: World, inp: Input): RuleResult {
    if Db(w).None? || w.registry.Unavailable? || inp.action !in w.registry.names then Passes
    else
      match w.effectiveWeights(Db(w).value, inp.action, inp.tenant)
      case Throws(_) => Passes
      case Gives(NotATable(e)) => Breaks(e)
      case Gives(Table(weights)) =>
        if inp.kind !in weights || weights[inp.kind].Absent? then Passes
        else
          match ToInt(py, weights[inp.kind])
          case Unsuitable => Passes
          case Unexpected(e) => Breaks(e)
          case Converted(n) =>
            if n < HARD_DENY then Passes
            else Fires(Verdict("deny", ["tenant_scoped_deny"], WeightEvidence(inp.action, inp.kind, n, HARD_DENY), "",
                               NAME, "governance_block"))
  }

  function CheckRestricted(inp: Input): RuleResult {
    if Attribute(inp, "data_classification") != Str("restricted") || inp.kind == "human" then Passes
    else Fires(Verdict("deny", ["restricted_data_requires_human"], RestrictedEvidence(inp.kind), "", NAME,
                       "governance_block"))
  }

  function DefaultAllow(hash: string): Verdict {
    Verdict("allow", ["policy_default_allow"], NoEvidence, hash, NAME, "clean_invocation")
  }

  function FailClosed(e: Error, hash: string): Verdict {
    Verdict("deny", ["evaluator_error", e.text], ErrorEvidence(e.kind), hash, NAME, "governance_block")
  }

  function WithHash(v: Verdict, hash: string): Verdict {
    Verdict(v.verdict, v.reasons, v.evidence, hash, NAME, v.signal)
  }

  // The rules in declaration order.
  function Rule(py: Python, w: World, inp: Input, k: nat): RuleResult
    requires k < 3
  {
    if k == 0 then CheckBudget(py, w, inp) else if k == 1 then CheckTenantWeight(py, w, inp) else CheckRestricted(inp)
  }

  // The loop over the rules inside the try, from the k-th on.
  function RunRules(py: Python, w: World, inp: Input, k: nat, hash: string): Verdict
    requires k <= 3
    decreases 3 - k
  {
    if k == 3 then DefaultAllow(hash)
    else
      match Rule(py, w, inp, k)
      case Passes => RunRules(py, w, inp, k + 1, hash)
      case Fires(v) => WithHash(v, hash)
      case Breaks(e) => FailClosed(e, hash)
  }

  function Evaluate(py: Python, w: World, inp: Input): Verdict {
    RunRules(py, w, inp, 0, PolicyHash(w, inp.tenant))
  }

  /** would_short_circuit() reads only the input and the scope registry. */
  predicate WouldShortCircuit(registry: Registry, inp: Input) {
    && Attribute(inp, "data_classification") != Str("restricted")
    && Attribute(inp, "estimated_cost_usd").Absent?
    && registry.Scopes? && inp.action !in registry.names
  }

  // ── The rule stack ─────────────────────────────────────────────────

  ghost predicate FirstAt(py: Python, w: World, inp: Input, k: nat) {
    k < 3 && !Rule(py, w, inp, k).Passes? && forall j: nat | j < k :: Rule(py, w, inp, j).Passes?
  }

  /** The verdict is that of the first rule, in declaration order, that does not pass: its own deny
      if it fires, a fail-closed deny naming the exception if it raises; a later rule never has a say.
      It is an allow exactly when every rule passes, and then the default allow. */
  lemma FirstRuleWins(py: Python, w: World, inp: Input)
    ensures var hash := PolicyHash(w, inp.tenant);
            && (forall k | FirstAt(py, w, inp, k) ::
                  && (Rule(py, w, inp, k).Fires? ==>
                        Evaluate(py, w, inp) == Rule(py, w, inp, k).verdict.(policyHash := hash))
                  && (Rule(py, w, inp, k).Breaks? ==>
                        var e := Rule(py, w, inp, k).error;
                        Evaluate(py, w, inp) ==
                        Verdict("deny", ["evaluator_error", e.text], ErrorEvidence(e.kind), hash, "native",
                                "governance_block"))
                  && Evaluate(py, w, inp).verdict == "deny")
            && (Evaluate(py, w, inp).verdict == "allow" <==> forall k: nat | k < 3 :: Rule(py, w, inp, k).Passes?)
            && (Evaluate(py, w, inp).verdict == "allow" ==>
                  Evaluate(py, w, inp) ==
                  Verdict("allow", ["policy_default_allow"], NoEvidence, hash, "native", "clean_invocation"))
  {
  }

  // ── What each rule asks, and of whom ───────────────────────────────

  /** An entry of the tenant's table for this action and kind that converts to n denies exactly from
      100 on, naming action, kind and weight; below, missing, or not a number, the rule passes. */
  lemma WeightThreshold(py: Python, w: World, inp: Input, weights: map<string, Attr>, n: int)
    requires Db(w).Some? && w.registry.Scopes? && inp.action in w.registry.names
    requires w.effectiveWeights(Db(w).value, inp.action, inp.tenant) == Gives(Table(weights))
    ensures inp.kind !in weights || weights[inp.kind].Absent? ==> Rule(py, w, inp, 1).Passes?
    ensures inp.kind in weights && ((weights[inp.kind].Str? && py.intStr(weights[inp.kind].s).Unsuitable?)
                                    || (weights[inp.kind].Other? && py.intOther(weights[inp.kind].id).Unsuitable?)) ==>
              Rule(py, w, inp, 1).Passes?
    ensures inp.kind in weights && (weights[inp.kind] == Int(n)
                                    || (weights[inp.kind].Str? && py.intStr(weights[inp.kind].s) == Converted(n))
                                    || (weights[inp.kind].Other?
                                        && py.intOther(weights[inp.kind].id) == Converted(n))) ==>
              Rule(py, w, inp, 1) ==
              if n >= 100 then
                Fires(Verdict("deny", ["tenant_scoped_deny"], WeightEvidence(inp.action, inp.kind, n, 100), "",
                              "native", "governance_block"))
              else Passes
  {
  }

  // The cost reaches should_refuse when the database and the import are there.
  predicate CostAsked(py: Python, inp: Input) {
    var cost := Attribute(inp, "estimated_cost_usd");
    !cost.Absent? && py.float(cost).Converted? && !AtMostZero(py.float(cost).value)
  }

  // The question of a caller that overrides neither scope nor key: an agent answers for itself,
  // everybody else for the tenant.
  function Default(inp: Input, cost: Float): BudgetRequest {
    if inp.kind == "agent" then BudgetRequest(inp.tenant, Str(inp.principal), Str("agent"), cost)
    else BudgetRequest(inp.tenant, Str("*"), Str("tenant"), cost)
  }

  // No key that counts: none, zero or the empty text.
  predicate NoKey(inp: Input) {
    var key := Attribute(inp, "budget_scope_key");
    key.Absent? || key == Int(0) || key == Str("")
  }

  /** A cost that converts to a positive number, to infinity or to NaN is put to the budget primitive
      in one question, and the rule fires exactly when the answer is "refuse"; any other cost is put
      to nobody. */
  lemma BudgetQuestion(py: Python, w: World, inp: Input, cost: Float)
    requires Db(w).Some? && w.budgetImports
    requires !Attribute(inp, "estimated_cost_usd").Absent?
    requires py.float(Attribute(inp, "estimated_cost_usd")) == Converted(cost)
    ensures (cost.Finite? && cost.r <= 0.0) || cost == Infinite(false) ==> Rule(py, w, inp, 0).Passes?
    ensures cost.NaN? || cost == Infinite(true) || (cost.Finite? && cost.r > 0.0) ==>
              var asked := RequestFor(py, inp, cost);
              && asked.tenant == inp.tenant && asked.cost == cost
              && (NoKey(inp) && "budget_scope" !in inp.attributes ==> asked == Default(inp, cost))
              && (Truthy(py, Attribute(inp, "budget_scope_key")) ==>
                    asked.scopeKey == Attribute(inp, "budget_scope_key"))
              && ("budget_scope" in inp.attributes ==> asked.scope == inp.attributes["budget_scope"])
              && var reply := w.shouldRefuse(Db(w).value, asked);
                 && (Rule(py, w, inp, 0).Fires? <==>
                       reply.Gives? && reply.value.Decision? && reply.value.verdict == "refuse")
                 && (Rule(py, w, inp, 0).Fires? ==>
                       var d := reply.value;
                       Rule(py, w, inp, 0).verdict ==
                       Verdict("deny", ["budget_exceeded"], BudgetEvidence(d.reason, d.current, d.threshold), "",
                               "native", "budget_exceeded"))
  {
  }

  /** A missing session, a failed import and a primitive that raises make their rule step aside; an
      answer that cannot be read makes it raise, which evaluate() turns into a deny. */
  lemma FailuresStepAside(py: Python, w: World, inp: Input)
    ensures Db(w).None? ==> Rule(py, w, inp, 0).Passes? || Rule(py, w, inp, 0).Breaks?
    ensures Db(w).None? ==> Rule(py, w, inp, 1).Passes?
    ensures w.session.Throws? ==> Db(w).None?
    ensures w.registry.Unavailable? ==> Rule(py, w, inp, 1).Passes?
    ensures !w.budgetImports ==> !Rule(py, w, inp, 0).Fires?
    ensures Db(w).Some? && w.effectiveWeights(Db(w).value, inp.action, inp.tenant).Throws? ==>
            Rule(py, w, inp, 1).Passes?
    ensures Rule(py, w, inp, 0).Breaks? <==>
              && !Attribute(inp, "estimated_cost_usd").Absent?
              && var c := py.float(Attribute(inp, "estimated_cost_usd"));
                 || c.Unexpected?
                 || (&& CostAsked(py, inp) && Db(w).Some? && w.budgetImports
                     && var reply := w.shouldRefuse(Db(w).value, RequestFor(py, inp, c.value));
                        reply.Gives? && reply.value.Malformed?)
  {
  }

  /** Restricted data is refused to everybody but humans, in no matter what world. */
  lemma RestrictedRule(py: Python, w: World, inp: Input)
    ensures Rule(py, w, inp, 2) ==
            if "data_classification" in inp.attributes && inp.attributes["data_classification"] == Str("restricted")
               && inp.kind != "human" then
              Fires(Verdict("deny", ["restricted_data_requires_human"], RestrictedEvidence(inp.kind), "", "native",
                            "governance_block"))
            else Passes
  {
  }

  ghost predicate HashesNonEmpty(w: World) {
    && (w.emptyHash.Gives? ==> w.emptyHash.value != "")
    && forall s, t :: w.effectiveHash(s, t).Gives? ==> w.effectiveHash(s, t).value != ""
  }

  /** Every verdict, fail-closed or not, carries the evaluator's name and one policy hash, which is
      not empty when the hash primitives never return an empty string: the effective hash whenever
      there is a session and computing it succeeds, else that of the empty policy if that can be had,
      else the documented constant. */
  lemma HashAlwaysThere(py: Python, w: World, inp: Input)
    ensures Evaluate(py, w, inp).policyHash == PolicyHash(w, inp.tenant) && Evaluate(py, w, inp).evaluator == NAME
    ensures HashesNonEmpty(w) ==> Evaluate(py, w, inp).policyHash != ""
    ensures Db(w).Some? && w.hashImports && w.effectiveHash(Db(w).value, inp.tenant).Gives? ==>
              Evaluate(py, w, inp).policyHash == w.effectiveHash(Db(w).value, inp.tenant).value
    ensures w.hashImports && (Db(w).None? || w.effectiveHash(Db(w).value, inp.tenant).Throws?) && w.emptyHash.Gives? ==>
              Evaluate(py, w, inp).policyHash == w.emptyHash.value
    ensures !w.hashImports
            || (w.emptyHash.Throws? && (Db(w).None? || w.effectiveHash(Db(w).value, inp.tenant).Throws?)) ==>
              Evaluate(py, w, inp).policyHash == "policy-hash-unavailable"
  {
  }

  // ── The fast path ──────────────────────────────────────────────────

  // The cost attribute can neither reach the budget primitive nor break its rule.
  predicate CostHarmless(py: Python, inp: Input) {
    var cost := Attribute(inp, "estimated_cost_usd");
    cost.Absent? || py.float(cost).Unsuitable? || (py.float(cost).Converted? && AtMostZero(py.float(cost).value))
  }

  /** No behaviour of the composed primitives can make a rule fire or raise. */
  predicate CanNeverFire(py: Python, registry: Registry, inp: Input) {
    && (Attribute(inp, "data_classification") != Str("restricted") || inp.kind == "human")
    && CostHarmless(py, inp)
    && (registry.Unavailable? || inp.action !in registry.names)
  }

  ghost predicate AlwaysDefaultAllow(py: Python, registry: Registry, inp: Input) {
    forall w: World | w.registry == registry :: Evaluate(py, w, inp) == DefaultAllow(PolicyHash(w, inp.tenant))
  }

  // Everything that can refuse, refuses.
  function Hostile(registry: Registry): World {
    World(Gives(Some(0)), false, (_, _) => Throws(Error("", "")), Throws(Error("", "")),
          true, (_, _) => Gives(Decision("refuse", "", 0.0, 0.0)),
          registry, (_, _, _) => Throws(Error("", "")))
  }

  function WithWeight(w: World, kind: string): World {
    w.(effectiveWeights := (_, _, _) => Gives(Table(map[kind := Int(HARD_DENY)])))
  }

  lemma NeverFires(py: Python, w: World, inp: Input)
    requires CanNeverFire(py, w.registry, inp)
    ensures forall k: nat | k < 3 :: Rule(py, w, inp, k).Passes?
  {
  }

  lemma HostileDenies(py: Python, registry: Registry, inp: Input)
    requires !CanNeverFire(py, registry, inp)
    ensures exists w: World :: w.registry == registry && Evaluate(py, w, inp).verdict != "allow"
  {
    var w := WithWeight(Hostile(registry), inp.kind);
    FirstRuleWins(py, w, inp);
    if !CostHarmless(py, inp) {
      assert !Rule(py, w, inp, 0).Passes?;
    } else if registry.Scopes? && inp.action in registry.names {
      assert !Rule(py, w, inp, 1).Passes?;
    } else {
      assert !Rule(py, w, inp, 2).Passes?;
    }
  }

  /** evaluate() returns the default allow in every session state and for every outcome of the
      primitives exactly when no rule can ever fire. */
  lemma AlwaysAllowsIff(py: Python, registry: Registry, inp: Input)
    ensures AlwaysDefaultAllow(py, registry, inp) <==> CanNeverFire(py, registry, inp)
  {
    if CanNeverFire(py, registry, inp) {
      forall w: World | w.registry == registry
        ensures Evaluate(py, w, inp) == DefaultAllow(PolicyHash(w, inp.tenant))
      {
        NeverFires(py, w, inp);
        FirstRuleWins(py, w, inp);
      }
    } else {
      HostileDenies(py, registry, inp);
    }
  }

  /** The fast path is sound, and it misses exactly three harmless families: a cost that is present
      but not a positive number, restricted data handled by a human, an unreadable registry. */
  lemma ShortCircuitIff(py: Python, registry: Registry, inp: Input)
    ensures WouldShortCircuit(registry, inp) <==>
            && AlwaysDefaultAllow(py, registry, inp)
            && Attribute(inp, "estimated_cost_usd").Absent?
            && !(Attribute(inp, "data_classification") == Str("restricted") && inp.kind == "human")
            && registry.Scopes?
  {
    AlwaysAllowsIff(py, registry, inp);
  }

  // ── Whom the budget is asked about ─────────────────────────────────

  // The budget rule's answer is the same whoever the principal is.
  ghost predicate BudgetIgnoresPrincipal(py: Python, inp: Input) {
    forall w: World, kind, principal ::
      CheckBudget(py, w, inp.(kind := kind, principal := principal)) == CheckBudget(py, w, inp)
  }

  predicate BothOverridden(py: Python, inp: Input) {
    Truthy(py, Attribute(inp, "budget_scope_key")) && "budget_scope" in inp.attributes
  }

  // The budget primitive refuses one question only.
  function RefusesOnly(refused: BudgetRequest): World {
    Hostile(Unavailable).(shouldRefuse := (_, asked) =>
      Gives(Decision(if asked == refused then "refuse" else "allow", "", 0.0, 0.0)))
  }

  lemma AskedDifferently(py: Python, inp: Input, kind: string, principal: string)
    requires CostAsked(py, inp)
    requires var cost := py.float(Attribute(inp, "estimated_cost_usd")).value;
             RequestFor(py, inp.(kind := kind, principal := principal), cost) != RequestFor(py, inp, cost)
    ensures !BudgetIgnoresPrincipal(py, inp)
  {
    var w := RefusesOnly(RequestFor(py, inp, py.float(Attribute(inp, "estimated_cost_usd")).value));
    hide RequestFor;
    assert CheckBudget(py, w, inp).Fires?;
    assert CheckBudget(py, w, inp.(kind := kind, principal := principal)).Passes?;
  }

  /** Who the principal is cannot influence the budget rule, in any world, exactly when the cost
      never reaches the primitive or the caller overrides both the scope and its key: overriding
      one of them alone leaves the other to the principal. */
  lemma BudgetIgnoresPrincipalIff(py: Python, inp: Input)
    ensures BudgetIgnoresPrincipal(py, inp) <==> !CostAsked(py, inp) || BothOverridden(py, inp)
  {
    if CostAsked(py, inp) && !BothOverridden(py, inp) {
      if inp.kind != "agent" {
        AskedDifferently(py, inp, "agent", "a");
      } else if Truthy(py, Attribute(inp, "budget_scope_key")) {
        AskedDifferently(py, inp, "human", inp.principal);
      } else {
        AskedDifferently(py, inp, "agent", inp.principal + "a");
      }
    }
  }
}

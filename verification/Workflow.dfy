/** Workflow plans: whether a plan stays inside its portfolio and its policy, and whether the
    budgets it draws on can pay for it. */
module Workflow {
  import opened Text
  import opened Sorting

  const MAX_INT64: int := 0x7FFF_FFFF_FFFF_FFFF

  type Int64 = x: int | -MAX_INT64 - 1 <= x <= MAX_INT64

  datatype StageKind = Cognition | Deterministic

  datatype Stage = Stage(
    id: string,
    role: string,
    kind: StageKind,
    isReview: bool,
    order: Int64,
    pool: string,
    timeout: Int64,
    endpoint: Option<string>,
    channel: Option<string>,
    profile: Option<string>,
    retryLimit: Int64,
    escalation: Option<string>)

  /** `schemaOk` stands for the schema checks on fields that are not modelled. */
  datatype Plan = Plan(stages: seq<Stage>, schemaOk: bool) {
    predicate Valid() {
      && schemaOk && stages != []
      && (forall s :: s in stages ==> s.order >= 1 && s.timeout >= 1 && s.retryLimit >= 0)
      && (forall i, j :: 0 <= i < j < |stages| ==> stages[i].id != stages[j].id && stages[i].order != stages[j].order)
    }
  }

  datatype Tuple = Tuple(endpoint: string, channel: string, profile: string, pool: string) {
    /** A stage leaves a field of the tuple open by not naming it; the pool is always named. */
    predicate Matches(s: Stage) {
      && (s.endpoint.None? || s.endpoint.value == endpoint)
      && (s.channel.None? || s.channel.value == channel)
      && (s.profile.None? || s.profile.value == profile)
      && s.pool == pool
    }
  }

  datatype Binding = Binding(role: string, primary: Tuple, fallbacks: seq<Tuple>)

  datatype Regime = LocalCompute | MeteredApi | EnterpriseAllocation | OtherRegime(name: string)

  datatype Pool = Pool(id: string, regime: Regime, allowOverage: bool)

  datatype Portfolio = Portfolio(bindings: seq<Binding>, pools: seq<Pool>, defaultRetries: Option<Int64>,
                                 schemaOk: bool)

  datatype Policy = Policy(maxStages: Int64, maxTotalRetries: Int64, maxTimeout: Int64)

  const DEFAULT_POLICY := Policy(8, 6, 3600)

  // ----- The rules ------------------------------------------------------------------------

  /** Diagnostic codes, in the order of their names. */
  datatype Code =
    | BindingMismatch | BudgetExhausted | BudgetMissingState | BudgetUnknown | EscalationTarget | RetryBound
    | ReviewNotCognition | RoleUnbound | TimeoutBound | UnboundedStages | UnknownBudgetPool
  {
    function Rank(): nat {
      match this
      case BindingMismatch => 0
      case BudgetExhausted => 1
      case BudgetMissingState => 2
      case BudgetUnknown => 3
      case EscalationTarget => 4
      case RetryBound => 5
      case ReviewNotCognition => 6
      case RoleUnbound => 7
      case TimeoutBound => 8
      case UnboundedStages => 9
      case UnknownBudgetPool => 10
    }
  }

  datatype Target = AllStages | OneStage(index: nat) {
    function Show(): string {
      match this
      case AllStages => "stages"
      case OneStage(i) => "stages[" + Digits(i) + "]"
    }
  }

  datatype Diagnostic = Diagnostic(code: Code, target: Target)

  /** The cap on one stage's retries: the portfolio's default when it is set. */
  function RetryCap(port: Portfolio, policy: Policy): int {
    if port.defaultRetries.Some? && port.defaultRetries.value > 0 then port.defaultRetries.value
    else policy.maxTotalRetries
  }

  ghost predicate Bound(bindings: seq<Binding>, role: string) {
    exists b :: b in bindings && b.role == role
  }

  /** A tuple the portfolio binds the role to, as primary or as fallback. */
  ghost predicate Offers(bindings: seq<Binding>, role: string, t: Tuple) {
    exists b :: b in bindings && b.role == role && (t == b.primary || t in b.fallbacks)
  }

  ghost predicate HasPool(pools: seq<Pool>, id: string) {
    exists p :: p in pools && p.id == id
  }

  ghost predicate Routed(port: Portfolio, s: Stage) {
    exists t :: Offers(port.bindings, s.role, t) && t.Matches(s)
  }

  ghost predicate EscalatesForward(stages: seq<Stage>, s: Stage) {
    s.escalation.Some? ==> exists t :: t in stages && t.id == s.escalation.value && t.order > s.order
  }

  /** Which rule a stage breaks, told from the plan, the portfolio and the policy alone. */
  ghost predicate StageViolates(stages: seq<Stage>, port: Portfolio, policy: Policy, s: Stage, c: Code) {
    match c
    case RetryBound => s.retryLimit > RetryCap(port, policy)
    case TimeoutBound => s.timeout > policy.maxTimeout
    case RoleUnbound => s.kind == Cognition && !Bound(port.bindings, s.role)
    case BindingMismatch =>
      if s.kind == Cognition then Bound(port.bindings, s.role) && !Routed(port, s)
      else s.endpoint.Some? || s.channel.Some? || s.profile.Some?
    case UnknownBudgetPool => !HasPool(port.pools, s.pool)
    case EscalationTarget => !EscalatesForward(stages, s)
    case ReviewNotCognition => s.isReview && s.kind != Cognition
    case _ => false
  }

  function Retries(stages: seq<Stage>): int {
    if stages == [] then 0 else Retries(stages[..|stages| - 1]) + stages[|stages| - 1].retryLimit
  }

  ghost predicate Violates(stages: seq<Stage>, port: Portfolio, policy: Policy, d: Diagnostic) {
    match d.target
    case OneStage(i) => i < |stages| && StageViolates(stages, port, policy, stages[i], d.code)
    case AllStages =>
      || (d.code == UnboundedStages && |stages| > policy.maxStages)
      || (d.code == RetryBound && Retries(stages) > policy.maxTotalRetries && policy.maxTotalRetries < MAX_INT64)
  }

  // ----- The saturating sum -----------------------------------------------------------------

  function Saturated(stages: seq<Stage>): int {
    if stages == [] then 0 else SaturatingAdd(Saturated(stages[..|stages| - 1]), stages[|stages| - 1].retryLimit)
  }

  function SaturatingAdd(sum: int, r: int): int {
    if sum > MAX_INT64 - r then MAX_INT64 else sum + r
  }

  /** The 64-bit sum never wraps, and is the exact sum cut off at the largest integer. */
  lemma {:induction false} SaturatedIsTheSumCutOff(stages: seq<Stage>)
    requires forall s :: s in stages ==> s.retryLimit >= 0
    ensures 0 <= Saturated(stages) <= MAX_INT64
    ensures Retries(stages) >= 0
    ensures Saturated(stages) == if Retries(stages) <= MAX_INT64 then Retries(stages) else MAX_INT64
  {
    if stages != [] {
      assert stages[|stages| - 1] in stages;
      SaturatedIsTheSumCutOff(stages[..|stages| - 1]);
    }
  }

  /** Comparing the saturating sum with a cap decides about the exact sum, for every cap but
      the largest integer, which the saturating sum can never exceed. */
  lemma SaturationIsFaithfulIff(cap: Int64)
    ensures (forall stages: seq<Stage> :: (forall s :: s in stages ==> s.retryLimit >= 0) ==>
              (Saturated(stages) > cap <==> Retries(stages) > cap))
       <==> cap < MAX_INT64
  {
    forall stages: seq<Stage> | forall s :: s in stages ==> s.retryLimit >= 0
      ensures Saturated(stages) <= MAX_INT64
      ensures (cap < MAX_INT64 ==> (Saturated(stages) > cap <==> Retries(stages) > cap))
    {
      SaturatedIsTheSumCutOff(stages);
    }
    var s := Stage("a", "", Cognition, false, 1, "", 1, None, None, None, MAX_INT64, None);
    var over := [s] + [s];
    assert over[..1] == [s] && [s][..0] == [];
    assert Retries([s]) == MAX_INT64;
    assert Retries(over) == Retries(over[..1]) + MAX_INT64;
    assert forall x :: x in over ==> x.retryLimit >= 0;
    assert Saturated(over) <= MAX_INT64;
  }

  // ----- The validator -----------------------------------------------------------------------------

  datatype Refusal = NoPlan | NoPortfolio | BadPolicy | BadPlan | BadPortfolio

  datatype Verdict = Refused(why: Refusal) | Checked(diagnostics: seq<Diagnostic>)

  function EffectivePolicy(policy: Option<Policy>): Policy {
    if policy.Some? then policy.value else DEFAULT_POLICY
  }

  predicate PolicyValid(p: Policy) {
    p.maxStages > 0 && p.maxTotalRetries > 0 && p.maxTimeout > 0
  }

  function ByTargetAndCode(): (Diagnostic, Diagnostic) -> bool {
    (a: Diagnostic, b: Diagnostic) =>
      if a.target.Show() != b.target.Show() then TextLess(a.target.Show(), b.target.Show())
      else a.code.Rank() < b.code.Rank()
  }

  lemma TargetsShowDifferently(a: Target, b: Target)
    requires a.Show() == b.Show()
    ensures a == b
  {
    if a.OneStage? && b.OneStage? {
      var x, y := Digits(a.index), Digits(b.index);
      assert a.Show()[7..|a.Show()| - 1] == x && b.Show()[7..|b.Show()| - 1] == y;
      DigitsRoundTrip(a.index);
      DigitsRoundTrip(b.index);
    }
  }

  lemma CodesRankDifferently(a: Code, b: Code)
    requires a.Rank() == b.Rank()
    ensures a == b
  {
  }

  lemma ByTargetAndCodeOrders(ds: set<Diagnostic>)
    ensures Orders(ByTargetAndCode(), ds)
  {
    hide Code.Rank, Target.Show;
    var less := ByTargetAndCode();
    forall a, b | a in ds && b in ds ensures !less(a, a) && (a != b ==> less(a, b) || less(b, a)) {
      TextOrder(a.target.Show(), b.target.Show());
      if a.target.Show() == b.target.Show() && a.code.Rank() == b.code.Rank() {
        TargetsShowDifferently(a.target, b.target);
        CodesRankDifferently(a.code, b.code);
      }
    }
    forall a, b, c | a in ds && b in ds && c in ds && less(a, b) && less(b, c) ensures less(a, c) {
      if TextLess(a.target.Show(), b.target.Show()) && TextLess(b.target.Show(), c.target.Show()) {
        TextTransitive(a.target.Show(), b.target.Show(), c.target.Show());
        TextOrder(a.target.Show(), c.target.Show());
      }
    }
  }

  /** Adds a code when its rule is broken. */
  function Noted(codes: seq<Code>, broken: bool, c: Code): (r: seq<Code>)
    ensures forall x :: x in r <==> x in codes || (broken && x == c)
    ensures Distinct(codes) && c !in codes ==> Distinct(r)
  {
    if broken then codes + [c] else codes
  }

  method AnyMatches(candidates: seq<Tuple>, s: Stage) returns (matched: bool)
    ensures matched <==> exists t :: t in candidates && t.Matches(s)
  {
    for k := 0 to |candidates|
      invariant forall j :: 0 <= j < k ==> !candidates[j].Matches(s)
    {
      if candidates[k].Matches(s) {
        return true;
      }
    }
    return false;
  }

  ghost predicate Reports(s: Stage, retryCap: int, maxTimeout: int, tuples: map<string, seq<Tuple>>, pools: set<string>,
                          orders: map<string, int>, c: Code)
  {
    match c
    case RetryBound => s.retryLimit > retryCap
    case TimeoutBound => s.timeout > maxTimeout
    case RoleUnbound => s.kind == Cognition && s.role !in tuples
    case BindingMismatch => Misrouted(s, tuples)
    case UnknownBudgetPool => s.pool !in pools
    case EscalationTarget => EscalatesBadly(s, orders)
    case ReviewNotCognition => s.isReview && s.kind != Cognition
    case _ => false
  }

  ghost predicate Misrouted(s: Stage, tuples: map<string, seq<Tuple>>) {
    if s.kind == Cognition then s.role in tuples && forall t :: t in tuples[s.role] ==> !t.Matches(s)
    else s.endpoint.Some? || s.channel.Some? || s.profile.Some?
  }

  method CheckRouting(s: Stage, tuples: map<string, seq<Tuple>>, before: seq<Code>) returns (codes: seq<Code>)
    requires Distinct(before) && RoleUnbound !in before && BindingMismatch !in before
    ensures Distinct(codes)
    ensures forall x :: x in codes <==>
      x in before || (x == RoleUnbound && s.kind == Cognition && s.role !in tuples)
      || (x == BindingMismatch && Misrouted(s, tuples))
  {
    hide Noted, Tuple.Matches, Distinct;
    match s.kind
    case Cognition =>
      if s.role !in tuples {
        codes := Noted(before, true, RoleUnbound);
      } else {
        var matched := AnyMatches(tuples[s.role], s);
        codes := Noted(before, !matched, BindingMismatch);
      }
    case Deterministic =>
      codes := Noted(before, s.endpoint.Some? || s.channel.Some? || s.profile.Some?, BindingMismatch);
  }

  predicate EscalatesBadly(s: Stage, orders: map<string, int>) {
    s.escalation.Some? && (s.escalation.value !in orders || orders[s.escalation.value] <= s.order)
  }

  method CheckReferences(s: Stage, pools: set<string>, orders: map<string, int>, before: seq<Code>)
    returns (codes: seq<Code>)
    requires Distinct(before) && UnknownBudgetPool !in before && EscalationTarget !in before
    ensures Distinct(codes)
    ensures forall x :: x in codes <==>
      x in before || (x == UnknownBudgetPool && s.pool !in pools)
      || (x == EscalationTarget && EscalatesBadly(s, orders))
  {
    hide Noted, Distinct;
    codes := Noted(before, s.pool !in pools, UnknownBudgetPool);
    codes := Noted(codes, EscalatesBadly(s, orders), EscalationTarget);
  }

  /** The rules of one stage, read from the validator's indexes. */
  method CheckStage(s: Stage, retryCap: int, maxTimeout: int, tuples: map<string, seq<Tuple>>, pools: set<string>,
                    orders: map<string, int>)
    returns (codes: seq<Code>)
    ensures Distinct(codes)
    ensures forall c :: c in codes <==> Reports(s, retryCap, maxTimeout, tuples, pools, orders, c)
  {
    codes := [];
    assert Distinct(codes);
    hide Noted, Misrouted, EscalatesBadly, Distinct;
    codes := Noted(codes, s.retryLimit > retryCap, RetryBound);
    codes := Noted(codes, s.timeout > maxTimeout, TimeoutBound);
    codes := CheckRouting(s, tuples, codes);
    codes := CheckReferences(s, pools, orders, codes);
    codes := Noted(codes, s.isReview && s.kind != Cognition, ReviewNotCognition);
  }

  /** The tuples of each role, over all bindings of the role. */
  method IndexTuples(bindings: seq<Binding>) returns (tuples: map<string, seq<Tuple>>)
    ensures forall role :: role in tuples <==> Bound(bindings, role)
    ensures forall role, t :: role in tuples ==> (t in tuples[role] <==> Offers(bindings, role, t))
  {
    tuples := map[];
    for k := 0 to |bindings|
      invariant forall role :: role in tuples <==> Bound(bindings[..k], role)
      invariant forall role, t :: role in tuples ==> (t in tuples[role] <==> Offers(bindings[..k], role, t))
    {
      var b := bindings[k];
      ghost var before := tuples;
      OneMoreBinding(bindings, k);
      var own := if b.role in tuples then tuples[b.role] else [];
      own := own + [b.primary];
      ghost var base := own;
      for j := 0 to |b.fallbacks|
        invariant own == base + b.fallbacks[..j]
      {
        own := own + [b.fallbacks[j]];
      }
      assert own == base + b.fallbacks;
      tuples := tuples[b.role := own];
    }
    assert bindings[..|bindings|] == bindings;
  }

  lemma OneMoreBinding(bindings: seq<Binding>, k: nat)
    requires k < |bindings|
    ensures forall role :: Bound(bindings[..k + 1], role) <==> Bound(bindings[..k], role) || role == bindings[k].role
    ensures forall role, t :: Offers(bindings[..k + 1], role, t) <==>
      Offers(bindings[..k], role, t)
      || (role == bindings[k].role && (t == bindings[k].primary || t in bindings[k].fallbacks))
    ensures forall role, t :: Offers(bindings[..k], role, t) ==> Bound(bindings[..k], role)
  {
    var more, b := bindings[..k + 1], bindings[k];
    assert more == bindings[..k] + [b];
    assert b in more && forall x :: x in bindings[..k] ==> x in more;
    forall role | Bound(bindings[..k], role) || role == b.role ensures Bound(more, role) {
      if Bound(bindings[..k], role) {
        var x :| x in bindings[..k] && x.role == role;
        assert x in more;
      }
    }
  }

  method IndexPools(pools: seq<Pool>) returns (ids: set<string>)
    ensures forall id :: id in ids <==> HasPool(pools, id)
  {
    ids := {};
    for k := 0 to |pools|
      invariant forall id :: id in ids <==> HasPool(pools[..k], id)
    {
      assert pools[..k + 1] == pools[..k] + [pools[k]];
      ids := ids + {pools[k].id};
    }
    assert pools[..|pools|] == pools;
  }

  method IndexOrders(stages: seq<Stage>) returns (orders: map<string, int>)
    requires forall i, j :: 0 <= i < j < |stages| ==> stages[i].id != stages[j].id
    ensures forall id :: id in orders <==> exists s :: s in stages && s.id == id
    ensures forall s :: s in stages ==> s.id in orders && orders[s.id] == s.order
  {
    orders := map[];
    for k := 0 to |stages|
      invariant forall id :: id in orders <==> exists s :: s in stages[..k] && s.id == id
      invariant forall j :: 0 <= j < k ==> stages[j].id in orders && orders[stages[j].id] == stages[j].order
    {
      assert stages[..k + 1] == stages[..k] + [stages[k]];
      orders := orders[stages[k].id := stages[k].order];
    }
    assert stages[..|stages|] == stages;
  }

  lemma ReportsTheRules(stages: seq<Stage>, port: Portfolio, policy: Policy, s: Stage, tuples: map<string, seq<Tuple>>,
                        pools: set<string>, orders: map<string, int>, c: Code)
    requires forall role :: role in tuples <==> Bound(port.bindings, role)
    requires forall role, t :: role in tuples ==> (t in tuples[role] <==> Offers(port.bindings, role, t))
    requires forall id :: id in pools <==> HasPool(port.pools, id)
    requires forall id :: id in orders <==> exists s :: s in stages && s.id == id
    requires forall s :: s in stages ==> s.id in orders && orders[s.id] == s.order
    ensures Reports(s, RetryCap(port, policy), policy.maxTimeout, tuples, pools, orders, c) <==>
      StageViolates(stages, port, policy, s, c)
  {
    hide Bound, Offers, HasPool, RetryCap, Tuple.Matches;
    if c == EscalationTarget && s.escalation.Some? {
      if t :| t in stages && t.id == s.escalation.value && t.order > s.order {
        assert orders[t.id] == t.order;
      } else if s.escalation.value in orders {
        var t :| t in stages && t.id == s.escalation.value;
        assert orders[t.id] == t.order;
      }
    }
  }

  /** The first gate that closes, in the order they are tried. */
  function Gate(plan: Option<Plan>, port: Option<Portfolio>, policy: Option<Policy>): Option<Refusal> {
    if plan.None? then Some(NoPlan)
    else if port.None? then Some(NoPortfolio)
    else if policy.Some? && !PolicyValid(policy.value) then Some(BadPolicy)
    else if !plan.value.Valid() then Some(BadPlan)
    else if !port.value.schemaOk then Some(BadPortfolio)
    else None
  }

  /** The diagnostics of stage `i`. */
  function At(i: nat, codes: seq<Code>): (ds: seq<Diagnostic>)
    ensures forall d :: d in ds <==> d.target == OneStage(i) && d.code in codes
    ensures Distinct(codes) ==> Distinct(ds)
  {
    var ds := seq(|codes|, k requires 0 <= k < |codes| => Diagnostic(codes[k], OneStage(i)));
    assert forall k :: 0 <= k < |codes| ==> ds[k].code == codes[k];
    assert forall d: Diagnostic :: d.target == OneStage(i) && d.code in codes ==> d in ds by {
      forall d: Diagnostic | d.target == OneStage(i) && d.code in codes ensures d in ds {
        var k :| 0 <= k < |codes| && codes[k] == d.code;
        assert ds[k] == d;
      }
    }
    ds
  }

  /** Everything `d` could be about has been looked at: the stage count, and the stages before `n`. */
  ghost predicate SeenBy(d: Diagnostic, n: nat) {
    match d.target
    case AllStages => d.code == UnboundedStages
    case OneStage(i) => i < n
  }

  lemma JoinDistinct<T>(a: seq<T>, b: seq<T>)
    requires Distinct(a) && Distinct(b) && forall x :: x in b ==> x !in a
    ensures Distinct(a + b)
  {
    forall i, j | 0 <= i < j < |a + b| ensures (a + b)[i] != (a + b)[j] {
      if i < |a| <= j {
        assert (a + b)[j] in b;
      }
    }
  }

  /** Validate: the diagnostics are exactly the broken rules, each once, sorted by target and code. */
  method Validate(plan: Option<Plan>, port: Option<Portfolio>, policy: Option<Policy>) returns (v: Verdict)
    ensures Gate(plan, port, policy).Some? ==> v == Refused(Gate(plan, port, policy).value)
    ensures Gate(plan, port, policy).None? ==>
      && v.Checked? && Ascending(v.diagnostics, ByTargetAndCode())
      && forall d :: d in v.diagnostics <==> Violates(plan.value.stages, port.value, EffectivePolicy(policy), d)
  {
    if plan.None? {
      return Refused(NoPlan);
    }
    if port.None? {
      return Refused(NoPortfolio);
    }
    if policy.Some? && !PolicyValid(policy.value) {
      return Refused(BadPolicy);
    }
    var chosen := EffectivePolicy(policy);
    if !plan.value.Valid() {
      return Refused(BadPlan);
    }
    if !port.value.schemaOk {
      return Refused(BadPortfolio);
    }
    var diagnostics := CheckAll(plan.value.stages, port.value, chosen);
    var sorted := Sort(diagnostics, ByTargetAndCode());
    ByTargetAndCodeOrders(Elements(diagnostics));
    SortSorts(diagnostics, ByTargetAndCode());
    assert forall d :: d in sorted <==> d in Elements(sorted);
    assert forall d :: d in diagnostics <==> d in Elements(diagnostics);
    v := Checked(sorted);
  }

  method CheckAll(stages: seq<Stage>, port: Portfolio, policy: Policy) returns (diagnostics: seq<Diagnostic>)
    requires Plan(stages, true).Valid()
    ensures Distinct(diagnostics)
    ensures forall d :: d in diagnostics <==> Violates(stages, port, policy, d)
  {
    hide Bound, Offers, HasPool, StageViolates, Reports, Retries, Saturated, Distinct, RetryCap;
    diagnostics := if |stages| > policy.maxStages then [Diagnostic(UnboundedStages, AllStages)] else [];
    OneIsDistinct(diagnostics);
    var retryCap := RetryCap(port, policy);
    var tuples := IndexTuples(port.bindings);
    var pools := IndexPools(port.pools);
    var orders := IndexOrders(stages);
    var sum: int := 0;
    NoRetries();
    for i := 0 to |stages|
      invariant sum == Saturated(stages[..i])
      invariant Distinct(diagnostics)
      invariant forall d :: d in diagnostics <==> SeenBy(d, i) && Violates(stages, port, policy, d)
    {
      var s := stages[i];
      var codes := CheckStage(s, retryCap, policy.maxTimeout, tuples, pools, orders);
      forall c ensures c in codes <==> StageViolates(stages, port, policy, s, c) {
        ReportsTheRules(stages, port, policy, s, tuples, pools, orders, c);
      }
      JoinDistinct(diagnostics, At(i, codes));
      diagnostics := diagnostics + At(i, codes);
      OneMoreRetry(stages, i);
      sum := SaturatingAdd(sum, s.retryLimit);
    }
    assert stages[..|stages|] == stages;
    SaturatedIsTheSumCutOff(stages);
    if sum > policy.maxTotalRetries {
      OneIsDistinct([Diagnostic(RetryBound, AllStages)]);
      JoinDistinct(diagnostics, [Diagnostic(RetryBound, AllStages)]);
      diagnostics := diagnostics + [Diagnostic(RetryBound, AllStages)];
    }
  }

  lemma OneIsDistinct(ds: seq<Diagnostic>)
    requires |ds| <= 1
    ensures Distinct(ds)
  {
  }

  lemma NoRetries()
    ensures Saturated([]) == 0
  {
  }

  lemma OneMoreRetry(stages: seq<Stage>, i: nat)
    requires i < |stages|
    ensures Saturated(stages[..i + 1]) == SaturatingAdd(Saturated(stages[..i]), stages[i].retryLimit)
  {
    assert stages[..i + 1][..i] == stages[..i];
  }

  // ----- What a valid plan guarantees ------------------------------------------------------------------

  ghost predicate Accepts(plan: Plan, port: Portfolio, policy: Policy) {
    plan.Valid() && port.schemaOk && forall d :: !Violates(plan.stages, port, policy, d)
  }

  /** A whole plan, said positively: stage by stage, and in sum. */
  ghost predicate SoundPlan(plan: Plan, port: Portfolio, policy: Policy) {
    && plan.schemaOk && port.schemaOk && 1 <= |plan.stages| <= policy.maxStages
    && (forall i, j :: 0 <= i < j < |plan.stages| ==>
          plan.stages[i].id != plan.stages[j].id && plan.stages[i].order != plan.stages[j].order)
    && (Retries(plan.stages) <= policy.maxTotalRetries || policy.maxTotalRetries == MAX_INT64)
    && forall i :: 0 <= i < |plan.stages| ==> SoundStage(plan.stages[i], plan.stages, port, policy)
  }

  ghost predicate SoundStage(s: Stage, stages: seq<Stage>, port: Portfolio, policy: Policy) {
    && s.order > 0 && 0 < s.timeout <= policy.maxTimeout && 0 <= s.retryLimit
    && s.retryLimit <= (match port.defaultRetries
                        case Some(n) => if n <= 0 then policy.maxTotalRetries else n
                        case None => policy.maxTotalRetries)
    && (exists k :: 0 <= k < |port.pools| && port.pools[k].id == s.pool)
    && (s.escalation.Some? ==> exists k :: 0 <= k < |stages| && Later(stages[k], s))
    && (s.kind.Deterministic? ==> s.endpoint.None? && s.channel.None? && s.profile.None? && !s.isReview)
    && (s.kind.Cognition? ==> exists k :: 0 <= k < |port.bindings| && Serves(port.bindings[k], s))
  }

  ghost predicate Later(t: Stage, s: Stage) {
    s.escalation == Some(t.id) && s.order < t.order
  }

  /** The binding is of the stage's role, and its primary or a fallback is what the stage names. */
  ghost predicate Serves(b: Binding, s: Stage) {
    b.role == s.role && (Suits(b.primary, s) || exists j :: 0 <= j < |b.fallbacks| && Suits(b.fallbacks[j], s))
  }

  ghost predicate Suits(t: Tuple, s: Stage) {
    && t.pool == s.pool && (s.endpoint == None || s.endpoint == Some(t.endpoint))
    && (s.channel == None || s.channel == Some(t.channel)) && (s.profile == None || s.profile == Some(t.profile))
  }

  /** A plan is accepted exactly when it is sound. */
  lemma AcceptsIffSound(plan: Plan, port: Portfolio, policy: Policy)
    ensures Accepts(plan, port, policy) <==> SoundPlan(plan, port, policy)
  {
    hide SoundStage, Violates, StageViolates, Retries;
    AllStagesIff(plan, port, policy);
    forall i | 0 <= i < |plan.stages|
      ensures SoundStage(plan.stages[i], plan.stages, port, policy) <==>
        Counted(plan.stages[i]) && forall c :: !StageViolates(plan.stages, port, policy, plan.stages[i], c)
    {
      SoundStageIff(plan.stages[i], plan.stages, port, policy);
    }
    assert plan.Valid() <==>
      plan.schemaOk && |plan.stages| >= 1 && (forall i :: 0 <= i < |plan.stages| ==> Counted(plan.stages[i]))
      && (forall i, j :: 0 <= i < j < |plan.stages| ==>
            plan.stages[i].id != plan.stages[j].id && plan.stages[i].order != plan.stages[j].order) by {
      ValidIff(plan);
    }
  }

  ghost predicate Counted(s: Stage) {
    s.order > 0 && s.timeout > 0 && 0 <= s.retryLimit
  }

  lemma ValidIff(plan: Plan)
    ensures plan.Valid() <==>
      plan.schemaOk && |plan.stages| >= 1 && (forall i :: 0 <= i < |plan.stages| ==> Counted(plan.stages[i]))
      && (forall i, j :: 0 <= i < j < |plan.stages| ==>
            plan.stages[i].id != plan.stages[j].id && plan.stages[i].order != plan.stages[j].order)
  {
    assert forall i :: 0 <= i < |plan.stages| ==> plan.stages[i] in plan.stages;
  }

  lemma AllStagesIff(plan: Plan, port: Portfolio, policy: Policy)
    ensures (forall d :: !Violates(plan.stages, port, policy, d)) <==>
      && |plan.stages| <= policy.maxStages
      && (Retries(plan.stages) <= policy.maxTotalRetries || policy.maxTotalRetries >= MAX_INT64)
      && forall i, c :: 0 <= i < |plan.stages| ==> !StageViolates(plan.stages, port, policy, plan.stages[i], c)
  {
    hide StageViolates, Retries;
    if forall d :: !Violates(plan.stages, port, policy, d) {
      assert !Violates(plan.stages, port, policy, Diagnostic(UnboundedStages, AllStages));
      assert !Violates(plan.stages, port, policy, Diagnostic(RetryBound, AllStages));
      forall i, c | 0 <= i < |plan.stages| ensures !StageViolates(plan.stages, port, policy, plan.stages[i], c) {
        assert !Violates(plan.stages, port, policy, Diagnostic(c, OneStage(i)));
      }
    }
  }

  lemma SoundStageIff(s: Stage, stages: seq<Stage>, port: Portfolio, policy: Policy)
    ensures SoundStage(s, stages, port, policy) <==>
      Counted(s) && forall c :: !StageViolates(stages, port, policy, s, c)
  {
    hide Routed, Bound, HasPool, EscalatesForward, Serves, Later;
    ServesIff(s, port);
    PoolIff(s, port);
    ForwardIff(s, stages);
    if forall c :: !StageViolates(stages, port, policy, s, c) {
      assert !StageViolates(stages, port, policy, s, RetryBound)
        && !StageViolates(stages, port, policy, s, TimeoutBound);
      assert !StageViolates(stages, port, policy, s, RoleUnbound);
      assert !StageViolates(stages, port, policy, s, BindingMismatch);
      assert !StageViolates(stages, port, policy, s, UnknownBudgetPool);
      assert !StageViolates(stages, port, policy, s, EscalationTarget);
      assert !StageViolates(stages, port, policy, s, ReviewNotCognition);
    }
  }

  lemma ServesIff(s: Stage, port: Portfolio)
    ensures (exists k :: 0 <= k < |port.bindings| && Serves(port.bindings[k], s)) <==> Routed(port, s)
    ensures Routed(port, s) ==> Bound(port.bindings, s.role)
  {
    if k :| 0 <= k < |port.bindings| && Serves(port.bindings[k], s) {
      var b := port.bindings[k];
      if Suits(b.primary, s) {
        assert Offers(port.bindings, s.role, b.primary);
      } else {
        var j :| 0 <= j < |b.fallbacks| && Suits(b.fallbacks[j], s);
        assert Offers(port.bindings, s.role, b.fallbacks[j]);
      }
    }
    if Routed(port, s) {
      var t :| Offers(port.bindings, s.role, t) && t.Matches(s);
      var b :| b in port.bindings && b.role == s.role && (t == b.primary || t in b.fallbacks);
      assert Suits(t, s);
      var k :| 0 <= k < |port.bindings| && port.bindings[k] == b;
      assert Serves(port.bindings[k], s);
    }
  }

  lemma PoolIff(s: Stage, port: Portfolio)
    ensures (exists k :: 0 <= k < |port.pools| && port.pools[k].id == s.pool) <==> HasPool(port.pools, s.pool)
  {
    if HasPool(port.pools, s.pool) {
      var p :| p in port.pools && p.id == s.pool;
      var k :| 0 <= k < |port.pools| && port.pools[k] == p;
    }
  }

  lemma ForwardIff(s: Stage, stages: seq<Stage>)
    ensures (s.escalation.Some? ==> exists k :: 0 <= k < |stages| && Later(stages[k], s)) <==>
      EscalatesForward(stages, s)
  {
    if s.escalation.Some? && EscalatesForward(stages, s) {
      var t :| t in stages && t.id == s.escalation.value && t.order > s.order;
      var k :| 0 <= k < |stages| && stages[k] == t;
      assert Later(stages[k], s);
    }
  }

  /** Nothing is refused exactly when plan and portfolio are there and valid, and the policy, if there
      is one, sets every bound; without one the plan may have eight stages, six retries in all and an
      hour a stage. */
  lemma GateIff(plan: Option<Plan>, port: Option<Portfolio>, policy: Option<Policy>)
    ensures Gate(plan, port, policy).None? <==>
      && plan.Some? && plan.value.Valid() && port.Some? && port.value.schemaOk
      && (policy.Some? ==>
            1 <= policy.value.maxStages && 1 <= policy.value.maxTotalRetries && 1 <= policy.value.maxTimeout)
    ensures EffectivePolicy(None).maxStages == 8 && EffectivePolicy(None).maxTotalRetries == 6
            && EffectivePolicy(None).maxTimeout == 60 * 60
  {
  }

  ghost predicate Escalates(stages: seq<Stage>, a: Stage, b: Stage) {
    a in stages && b in stages && a.escalation == Some(b.id)
  }

  /** A run of escalations, stage by stage. */
  ghost predicate Chain(stages: seq<Stage>, path: seq<Stage>) {
    path != [] && path[0] in stages && forall k :: 0 <= k < |path| - 1 ==> Escalates(stages, path[k], path[k + 1])
  }

  lemma EscalationClimbs(plan: Plan, port: Portfolio, policy: Policy, a: Stage, b: Stage)
    requires Accepts(plan, port, policy) && Escalates(plan.stages, a, b)
    ensures a.order < b.order
  {
    var i :| 0 <= i < |plan.stages| && plan.stages[i] == a;
    assert !Violates(plan.stages, port, policy, Diagnostic(EscalationTarget, OneStage(i)));
    assert EscalatesForward(plan.stages, a);
    var t :| t in plan.stages && t.id == b.id && t.order > a.order;
    SameStage(plan, b, t);
  }

  lemma SameStage(plan: Plan, a: Stage, b: Stage)
    requires plan.Valid() && a in plan.stages && b in plan.stages && a.id == b.id
    ensures a == b
  {
    var i :| 0 <= i < |plan.stages| && plan.stages[i] == a;
    var j :| 0 <= j < |plan.stages| && plan.stages[j] == b;
  }

  /** Along a chain the order only climbs, so no stage comes twice and the chain is no longer
      than the plan. */
  lemma {:induction false} EscalationsEnd(plan: Plan, port: Portfolio, policy: Policy, path: seq<Stage>)
    requires Accepts(plan, port, policy) && Chain(plan.stages, path)
    ensures forall i, j :: 0 <= i < j < |path| ==> path[i].order < path[j].order
    ensures |path| <= |plan.stages|
  {
    hide Accepts;
    ChainClimbs(plan, port, policy, path);
    assert forall k :: 0 <= k < |path| ==> path[k] in plan.stages by {
      forall k | 0 <= k < |path| ensures path[k] in plan.stages {
        if k > 0 {
          assert Escalates(plan.stages, path[k - 1], path[k - 1 + 1]);
        }
      }
    }
    DistinctFits(path, plan.stages);
  }

  lemma {:induction false} ChainClimbs(plan: Plan, port: Portfolio, policy: Policy, path: seq<Stage>)
    requires Accepts(plan, port, policy) && Chain(plan.stages, path)
    ensures forall i, j :: 0 <= i < j < |path| ==> path[i].order < path[j].order
  {
    hide Accepts;
    if |path| > 1 {
      var n := |path| - 1;
      var front := path[..n];
      assert Chain(plan.stages, front);
      ChainClimbs(plan, port, policy, front);
      assert Escalates(plan.stages, path[n - 1], path[n - 1 + 1]);
      EscalationClimbs(plan, port, policy, path[n - 1], path[n]);
      forall i, j | 0 <= i < j < |path| ensures path[i].order < path[j].order {
        if j == n && i < n - 1 {
          assert front[i].order < front[n - 1].order;
        } else if j < n {
          assert front[i].order < front[j].order;
        }
      }
    }
  }

  /** Pigeonhole: distinct elements of a list are no more than its length. */
  lemma {:induction false} DistinctFits(a: seq<Stage>, b: seq<Stage>)
    requires Distinct(a) && forall x :: x in a ==> x in b
    ensures |a| <= |b|
  {
    if a != [] {
      var n := |a| - 1;
      var last := a[n];
      assert last in a && last in b;
      var k :| 0 <= k < |b| && b[k] == last;
      var rest := b[..k] + b[k + 1..];
      forall x | x in a[..n] ensures x in rest {
        assert x != last && x in a && x in b;
        var j :| 0 <= j < |b| && b[j] == x;
        assert if j < k then rest[j] == x else rest[j - 1] == x;
      }
      DistinctFits(a[..n], rest);
    }
  }

  /** Every stage's escalations lead, in a valid plan, to a stage that escalates no further. */
  lemma {:induction false} EscalationReachesAnEnd(plan: Plan, port: Portfolio, policy: Policy, path: seq<Stage>)
    returns (full: seq<Stage>)
    requires Accepts(plan, port, policy) && Chain(plan.stages, path)
    ensures Chain(plan.stages, full) && path <= full && full[|full| - 1].escalation.None?
    decreases |plan.stages| - |path|
  {
    var last := path[|path| - 1];
    EscalationsEnd(plan, port, policy, path);
    LastIsAStage(plan.stages, path);
    if last.escalation.None? {
      return path;
    }
    var i :| 0 <= i < |plan.stages| && plan.stages[i] == last;
    assert !Violates(plan.stages, port, policy, Diagnostic(EscalationTarget, OneStage(i)));
    assert EscalatesForward(plan.stages, last);
    var next :| next in plan.stages && next.id == last.escalation.value && next.order > last.order;
    assert Escalates(plan.stages, last, next);
    assert Chain(plan.stages, path + [next]);
    EscalationsEnd(plan, port, policy, path + [next]);
    full := EscalationReachesAnEnd(plan, port, policy, path + [next]);
  }

  lemma LastIsAStage(stages: seq<Stage>, path: seq<Stage>)
    requires Chain(stages, path)
    ensures path[|path| - 1] in stages
  {
    if |path| > 1 {
      assert Escalates(stages, path[|path| - 2], path[|path| - 2 + 1]);
    }
  }

  /** Loosening the policy keeps every accepted plan accepted. */
  lemma LooserPolicyAccepts(plan: Plan, port: Portfolio, strict: Policy, loose: Policy)
    requires Accepts(plan, port, strict)
    requires strict.maxStages <= loose.maxStages && strict.maxTotalRetries <= loose.maxTotalRetries
    requires strict.maxTimeout <= loose.maxTimeout
    ensures Accepts(plan, port, loose)
  {
    hide Bound, Routed, HasPool, EscalatesForward;
    forall d ensures !Violates(plan.stages, port, loose, d) {
      assert !Violates(plan.stages, port, strict, d);
    }
  }

  // ----- Budgets ---------------------------------------------------------------------------------------

  datatype Status = Exhausted | UnknownStatus | OtherStatus(name: string)

  datatype BudgetState = BudgetState(status: Status, remaining: Option<Int64>) {
    predicate Spent() {
      status == Exhausted || (remaining.Some? && remaining.value <= 0)
    }
  }

  predicate MayOverdraw(p: Pool) {
    p.allowOverage && p.regime in {MeteredApi, EnterpriseAllocation}
  }

  predicate MayBeUnknown(p: Pool, allowUnknownLocal: bool) {
    p.regime == LocalCompute && allowUnknownLocal
  }

  function StateIn(states: map<string, BudgetState>, id: string): Option<BudgetState> {
    if id in states then Some(states[id]) else None
  }

  /** A pool work may draw on: not spent beyond what it may overdraw, and known wherever
      ignorance is not explicitly allowed. */
  predicate Usable(p: Pool, state: Option<BudgetState>, allowUnknownLocal: bool) {
    match state
    case None => MayBeUnknown(p, allowUnknownLocal)
    case Some(b) => (b.Spent() ==> MayOverdraw(p)) && (b.status == UnknownStatus ==> MayBeUnknown(p, allowUnknownLocal))
  }

  /** The pool a map built from the list holds: the last one of that id. */
  function PoolNamed(pools: seq<Pool>, id: string): (p: Option<Pool>)
    ensures p.Some? <==> exists x :: x in pools && x.id == id
    ensures p.Some? ==> p.value in pools && p.value.id == id
  {
    if pools == [] then None
    else
      var front, last := pools[..|pools| - 1], pools[|pools| - 1];
      assert pools == front + [last];
      if last.id == id then Some(last) else PoolNamed(front, id)
  }

  /** The one fault a stage's budget has, if any. */
  function BudgetFault(pool: Option<Pool>, state: Option<BudgetState>, allowUnknownLocal: bool): Option<Code> {
    if pool.None? then Some(UnknownBudgetPool)
    else if Usable(pool.value, state, allowUnknownLocal) then None
    else if state.None? then Some(BudgetMissingState)
    else if state.value.Spent() && !MayOverdraw(pool.value) then Some(BudgetExhausted)
    else Some(BudgetUnknown)
  }

  ghost predicate Overdraws(stages: seq<Stage>, pools: seq<Pool>, states: map<string, BudgetState>,
                            allowUnknownLocal: bool, d: Diagnostic) {
    d.target.OneStage? && d.target.index < |stages|
    && var id := stages[d.target.index].pool;
       BudgetFault(PoolNamed(pools, id), StateIn(states, id), allowUnknownLocal) == Some(d.code)
  }

  method IndexPoolRecords(pools: seq<Pool>) returns (index: map<string, Pool>)
    ensures forall id :: (if id in index then Some(index[id]) else None) == PoolNamed(pools, id)
  {
    index := map[];
    for k := 0 to |pools|
      invariant forall id :: (if id in index then Some(index[id]) else None) == PoolNamed(pools[..k], id)
    {
      assert pools[..k + 1][..k] == pools[..k];
      index := index[pools[k].id := pools[k]];
    }
    assert pools[..|pools|] == pools;
  }

  /** AuthorizeWorkflowBudget: each stage is judged by the live state of its own pool. */
  method AuthorizeWorkflowBudget(plan: Option<Plan>, port: Option<Portfolio>, states: map<string, BudgetState>,
                                 allowUnknownLocal: bool)
    returns (v: Verdict)
    ensures Gate(plan, port, None).Some? ==> v == Refused(Gate(plan, port, None).value)
    ensures Gate(plan, port, None).None? ==>
      && v.Checked? && Ascending(v.diagnostics, ByTargetAndCode())
      && forall d ::
        d in v.diagnostics <==> Overdraws(plan.value.stages, port.value.pools, states, allowUnknownLocal, d)
  {
    if plan.None? {
      return Refused(NoPlan);
    }
    if port.None? {
      return Refused(NoPortfolio);
    }
    if !plan.value.Valid() {
      return Refused(BadPlan);
    }
    if !port.value.schemaOk {
      return Refused(BadPortfolio);
    }
    var diagnostics := AuthorizeStages(plan.value.stages, port.value.pools, states, allowUnknownLocal);
    var sorted := Sort(diagnostics, ByTargetAndCode());
    ByTargetAndCodeOrders(Elements(diagnostics));
    SortSorts(diagnostics, ByTargetAndCode());
    assert forall d :: d in sorted <==> d in Elements(sorted);
    assert forall d :: d in diagnostics <==> d in Elements(diagnostics);
    v := Checked(sorted);
  }

  method AuthorizeStages(stages: seq<Stage>, pools: seq<Pool>, states: map<string, BudgetState>,
                         allowUnknownLocal: bool)
    returns (diagnostics: seq<Diagnostic>)
    ensures Distinct(diagnostics)
    ensures forall d :: d in diagnostics <==> Overdraws(stages, pools, states, allowUnknownLocal, d)
  {
    var index := IndexPoolRecords(pools);
    diagnostics := [];
    for i := 0 to |stages|
      invariant Distinct(diagnostics)
      invariant forall d :: d in diagnostics <==>
        d.target.OneStage? && d.target.index < i && Overdraws(stages, pools, states, allowUnknownLocal, d)
    {
      var id := stages[i].pool;
      var state := StateIn(states, id);
      var fault: Option<Code> := None;
      assert PoolNamed(pools, id) == if id in index then Some(index[id]) else None;
      if id !in index {
        fault := Some(UnknownBudgetPool);
      } else if state.None? {
        fault := if MayBeUnknown(index[id], allowUnknownLocal) then None else Some(BudgetMissingState);
      } else if state.value.Spent() && !MayOverdraw(index[id]) {
        fault := Some(BudgetExhausted);
      } else if state.value.status == UnknownStatus {
        fault := if MayBeUnknown(index[id], allowUnknownLocal) then None else Some(BudgetUnknown);
      }
      assert fault == BudgetFault(PoolNamed(pools, id), state, allowUnknownLocal);
      if fault.Some? {
        diagnostics := diagnostics + [Diagnostic(fault.value, OneStage(i))];
      }
    }
  }

  ghost predicate Authorised(plan: Plan, port: Portfolio, states: map<string, BudgetState>, allowUnknownLocal: bool) {
    forall d :: !Overdraws(plan.stages, port.pools, states, allowUnknownLocal, d)
  }

  /** When a stage may draw on its pool: without a live state only on local compute and only if
      that is allowed; on a spent pool only where metered or enterprise use may run over; and
      on a pool of unknown status only as without a state. */
  ghost predicate MayDraw(p: Pool, states: map<string, BudgetState>, allowUnknownLocal: bool) {
    if p.id !in states then p.regime.LocalCompute? && allowUnknownLocal
    else
      var s := states[p.id];
      && (s.status.Exhausted? || (s.remaining.Some? && s.remaining.value <= 0) ==>
            p.allowOverage && (p.regime.MeteredApi? || p.regime.EnterpriseAllocation?))
      && (s.status.UnknownStatus? ==> p.regime.LocalCompute? && allowUnknownLocal)
  }

  lemma UsableIff(p: Pool, states: map<string, BudgetState>, allowUnknownLocal: bool)
    ensures Usable(p, StateIn(states, p.id), allowUnknownLocal) <==> MayDraw(p, states, allowUnknownLocal)
  {
  }

  /** The last pool of the list with the id. */
  ghost predicate LastPool(pools: seq<Pool>, id: string, p: Pool) {
    exists k :: 0 <= k < |pools| && pools[k] == p && p.id == id && forall j :: k < j < |pools| ==> pools[j].id != id
  }

  lemma {:induction false} PoolNamedIsLast(pools: seq<Pool>, id: string)
    ensures match PoolNamed(pools, id)
            case Some(p) => LastPool(pools, id, p)
            case None => forall k :: 0 <= k < |pools| ==> pools[k].id != id
  {
    if pools != [] {
      var front, last := pools[..|pools| - 1], pools[|pools| - 1];
      assert pools == front + [last];
      PoolNamedIsLast(front, id);
      if last.id == id {
        assert pools[|pools| - 1] == last;
      } else if PoolNamed(front, id).Some? {
        var p := PoolNamed(front, id).value;
        var k :| 0 <= k < |front| && front[k] == p && p.id == id && forall j :: k < j < |front| ==> front[j].id != id;
        assert pools[k] == p;
      }
    }
  }

  /** The budget is authorised exactly when the last pool of the id every stage names is one the
      stage may draw on. */
  lemma AuthorisedIffMayDraw(plan: Plan, port: Portfolio, states: map<string, BudgetState>, allowUnknownLocal: bool)
    ensures Authorised(plan, port, states, allowUnknownLocal) <==>
      forall s :: s in plan.stages ==>
        exists p :: LastPool(port.pools, s.pool, p) && MayDraw(p, states, allowUnknownLocal)
  {
    hide Usable, PoolNamed, MayDraw, LastPool, Authorised;
    AuthorisedIffUsable(plan, port, states, allowUnknownLocal);
    forall s | s in plan.stages
      ensures PoolNamed(port.pools, s.pool).Some?
              && Usable(PoolNamed(port.pools, s.pool).value, StateIn(states, s.pool), allowUnknownLocal)
              <==> exists p :: LastPool(port.pools, s.pool, p) && MayDraw(p, states, allowUnknownLocal)
    {
      PoolNamedIsLast(port.pools, s.pool);
      OnlyLastPool(port.pools, s.pool);
      var p := PoolNamed(port.pools, s.pool);
      if p.Some? {
        UsableIff(p.value, states, allowUnknownLocal);
      }
    }
  }

  lemma OnlyLastPool(pools: seq<Pool>, id: string)
    ensures forall p, q :: LastPool(pools, id, p) && LastPool(pools, id, q) ==> p == q
    ensures forall p :: LastPool(pools, id, p) ==> exists k :: 0 <= k < |pools| && pools[k].id == id
    ensures forall p :: LastPool(pools, id, p) ==> p.id == id
  {
    forall p, q | LastPool(pools, id, p) && LastPool(pools, id, q) ensures p == q {
      var k :| 0 <= k < |pools| && pools[k] == p && p.id == id && forall j :: k < j < |pools| ==> pools[j].id != id;
      var l :| 0 <= l < |pools| && pools[l] == q && q.id == id && forall j :: l < j < |pools| ==> pools[j].id != id;
      assert k == l;
    }
  }

  /** The budget is authorised exactly when every stage draws on an existing, usable pool. */
  lemma AuthorisedIffUsable(plan: Plan, port: Portfolio, states: map<string, BudgetState>, allowUnknownLocal: bool)
    ensures Authorised(plan, port, states, allowUnknownLocal) <==>
      forall s :: s in plan.stages ==>
        var p := PoolNamed(port.pools, s.pool);
        p.Some? && Usable(p.value, StateIn(states, s.pool), allowUnknownLocal)
  {
    hide Usable, PoolNamed, MayOverdraw;
    if Authorised(plan, port, states, allowUnknownLocal) {
      forall s | s in plan.stages
        ensures BudgetFault(PoolNamed(port.pools, s.pool), StateIn(states, s.pool), allowUnknownLocal).None?
      {
        var i :| 0 <= i < |plan.stages| && plan.stages[i] == s;
        forall c
          ensures BudgetFault(PoolNamed(port.pools, s.pool), StateIn(states, s.pool), allowUnknownLocal) != Some(c)
        {
          assert !Overdraws(plan.stages, port.pools, states, allowUnknownLocal, Diagnostic(c, OneStage(i)));
        }
      }
    }
  }

  /** A valid and authorised plan routes every cognition stage through a tuple its role is
      bound to, and the pool of that tuple exists and is usable. */
  lemma EveryStageIsRoutedAndPaid(plan: Plan, port: Portfolio, policy: Policy, states: map<string, BudgetState>,
                                  allowUnknownLocal: bool, s: Stage)
    requires Accepts(plan, port, policy) && Authorised(plan, port, states, allowUnknownLocal) && s in plan.stages
    ensures s.kind == Cognition ==>
      exists t, p :: Offers(port.bindings, s.role, t) && t.Matches(s) && p in port.pools && p.id == t.pool
        && Usable(p, StateIn(states, t.pool), allowUnknownLocal)
    ensures s.kind == Deterministic ==> s.endpoint.None? && s.channel.None? && s.profile.None? && !s.isReview
  {
    hide Usable, Offers, StateIn;
    var i :| 0 <= i < |plan.stages| && plan.stages[i] == s;
    assert !Violates(plan.stages, port, policy, Diagnostic(BindingMismatch, OneStage(i)));
    assert !Violates(plan.stages, port, policy, Diagnostic(RoleUnbound, OneStage(i)));
    assert !Violates(plan.stages, port, policy, Diagnostic(ReviewNotCognition, OneStage(i)));
    AuthorisedIffUsable(plan, port, states, allowUnknownLocal);
    var p := PoolNamed(port.pools, s.pool).value;
    if s.kind == Cognition {
      var t :| Offers(port.bindings, s.role, t) && t.Matches(s);
      assert p.id == t.pool;
    }
  }
}

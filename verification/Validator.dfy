/** Portfolio validation: eight dimensions of checks over every binding and fallback, and what
    loosening the policy does to them. */
module Validator {
  import opened Text
  import Routing

  // ----- Portfolios ------------------------------------------------------------------------

  datatype Channel = Channel(id: string, endpoint: string, tools: bool, control: Option<string>, cache: Option<string>)

  datatype Route = Route(endpoint: string, channel: string, profile: string, pool: string)

  datatype Binding = Binding(role: string, primary: Route, fallbacks: seq<Route>)

  datatype Regime = LocalCompute | MeteredApi | OtherRegime(name: string)

  datatype Pool = Pool(id: string, regime: Regime, allowOverage: bool, fallbackToMetered: bool)

  datatype Diversity = Diversity(models: bool, providers: bool, endpoints: bool)

  /** `schemaOk` stands for the portfolio's own schema validation. */
  datatype Portfolio = Portfolio(
    channels: seq<Channel>, bindings: seq<Binding>, pools: seq<Pool>, maxExposure: Routing.Exposure,
    excluded: seq<string>, diversity: Option<Diversity>, schemaOk: bool)

  // ----- Facts ----------------------------------------------------------------------------------

  datatype Backend = Cpu | UnknownBackend | Accelerator(name: string)

  datatype Provenance = Configured | Measured | Evaluated | NoProvenance

  datatype Graded = Graded(dimension: string, grade: Routing.Grade, provenance: Provenance)

  /** An endpoint of the machine profile. */
  datatype Endpoint = Endpoint(
    id: string, ready: bool, auth: Routing.Auth, local: bool, exposure: Routing.Exposure, cost: Routing.Cost,
    backend: Option<Backend>, verified: bool, toolUse: Routing.Feature, structuredOutput: Routing.Feature,
    capabilities: seq<Graded>, provider: string, model: string, contextTokens: Option<int>)

  /** The inventory's summary of an endpoint, which knows nothing of tools or capabilities. */
  datatype Summary = Summary(
    id: string, ready: bool, auth: Routing.Auth, local: bool, exposure: Routing.Exposure, cost: Routing.Cost,
    backend: Option<Backend>, verified: bool)

  /** An unknown observation is None. */
  datatype ContextProfile = ContextProfile(endpoint: string, channel: string, control: Option<string>,
                                           cache: Option<string>, contractLimit: int)

  datatype Status = Exhausted | UnknownStatus | OtherStatus

  datatype BudgetState = BudgetState(status: Status, remaining: Option<int>)

  datatype HostState = HostState(active: Option<int>, capacity: Option<int>, unknownMetrics: bool)

  datatype Facts = Facts(
    profile: seq<Endpoint>, inventory: seq<Summary>, backends: set<Backend>, profiles: map<string, ContextProfile>,
    budgets: Option<map<string, BudgetState>>, hosts: map<string, HostState>, stale: bool)

  // ----- Policies --------------------------------------------------------------------------------

  datatype Requirement = Requirement(dimension: string, minGrade: Routing.Grade, structuredOutput: bool, toolUse: bool,
                                     acceleration: bool)

  datatype Policy = Policy(
    maxExposure: Option<Routing.Exposure>, maxCost: Option<Routing.Cost>, regimes: set<Regime>, forbidMetered: bool,
    measuredProvenance: bool, verifiedAcceleration: bool, knownContextControl: bool, knownResources: bool,
    knownBudgets: bool,
    minContractLimit: int, requirements: map<string, Requirement>)

  function DefaultRequirements(): map<string, Requirement> {
    map[
      "scout" := Requirement("repository_reasoning", Routing.Unknown, false, false, false),
      "classifier" := Requirement("repository_reasoning", Routing.Unknown, true, false, false),
      "implementer" := Requirement("implementation", Routing.Strong, false, false, false),
      "correctness_reviewer" := Requirement("review", Routing.Medium, false, false, false),
      "architecture_reviewer" := Requirement("architecture", Routing.Strong, false, false, false)]
  }

  function DefaultPolicy(): Policy {
    Policy(Some(Routing.FocusedSnippets), Some(Routing.RemoteEconomy), {}, false, false, false, false, true, true, 0,
           DefaultRequirements())
  }

  /** The requirements in effect without any: nothing of a scout, structured output of a classifier,
      strong or medium grades of the others, and no other feature of anybody. */
  lemma DefaultsAsk(role: string)
    ensures
      var d := DefaultRequirements();
      && (role in d <==>
        role in {"scout", "classifier", "implementer", "correctness_reviewer", "architecture_reviewer"})
      && (role in d ==>
            && !d[role].toolUse && !d[role].acceleration && (d[role].structuredOutput <==> role == "classifier")
            && (d[role].minGrade.Unknown? <==> role in {"scout", "classifier"})
            && (d[role].minGrade.Medium? <==> role == "correctness_reviewer")
            && (d[role].minGrade.Strong? <==> role in {"implementer", "architecture_reviewer"})
            && d[role].dimension == match role
                                    case "implementer" => "implementation"
                                    case "correctness_reviewer" => "review"
                                    case "architecture_reviewer" => "architecture"
                                    case _ => "repository_reasoning")
  {
  }

  /** The policy in effect without any: snippets at most, economy at most, and whoever does not
      know a budget or a resource fails. */
  lemma DefaultPolicyIs()
    ensures
      var p := Effective(None);
      && p.maxExposure == Some(Routing.FocusedSnippets) && p.maxCost == Some(Routing.RemoteEconomy)
      && p.regimes == {} && !p.forbidMetered && !p.measuredProvenance && !p.verifiedAcceleration
      && !p.knownContextControl && p.knownResources && p.knownBudgets && p.minContractLimit == 0
      && p.requirements == DefaultRequirements()
  {
    assert "scout" in DefaultRequirements();
  }

  /** No policy means the default one, and no requirements mean the default ones. */
  function Effective(policy: Option<Policy>): Policy {
    var p := if policy.Some? then policy.value else DefaultPolicy();
    if p.requirements == map[] then p.(requirements := DefaultRequirements()) else p
  }

  // ----- The lookups of one run -------------------------------------------------------------------

  function IndexBy<T>(xs: seq<T>, key: T -> string): map<string, T> {
    if xs == [] then map[] else IndexBy(xs[..|xs| - 1], key)[key(xs[|xs| - 1]) := xs[|xs| - 1]]
  }

  datatype Context = Context(
    policy: Policy, p: Portfolio, facts: Facts,
    channels: map<string, Channel>, pools: map<string, Pool>, profile: map<string, Endpoint>,
    inventory: map<string, Summary>)

  function ContextOf(policy: Policy, p: Portfolio, facts: Facts): Context {
    Context(policy, p, facts, IndexBy(p.channels, (c: Channel) => c.id), IndexBy(p.pools, (b: Pool) => b.id),
            IndexBy(facts.profile, (e: Endpoint) => e.id), IndexBy(facts.inventory, (s: Summary) => s.id))
  }

  method Index<T>(xs: seq<T>, key: T -> string) returns (m: map<string, T>)
    ensures m == IndexBy(xs, key)
  {
    m := map[];
    for k := 0 to |xs|
      invariant m == IndexBy(xs[..k], key)
    {
      assert xs[..k + 1][..k] == xs[..k];
      m := m[key(xs[k]) := xs[k]];
    }
    assert xs[..|xs|] == xs;
  }

  /** Entry `i` is the last one of its id. */
  ghost predicate LastOf<T(!new)>(xs: seq<T>, key: T -> string, id: string, i: int) {
    0 <= i < |xs| && key(xs[i]) == id && forall j :: i < j < |xs| ==> key(xs[j]) != id
  }

  ghost predicate NoneOf<T(!new)>(xs: seq<T>, key: T -> string, id: string) {
    forall j :: 0 <= j < |xs| ==> key(xs[j]) != id
  }

  /** The lookup has the ids of the list and no other, and for each the last entry with it. */
  ghost predicate HoldsLast<T(!new)>(m: map<string, T>, xs: seq<T>, key: T -> string) {
    && (forall id :: NoneOf(xs, key, id) ==> id !in m)
    && (forall id, i :: LastOf(xs, key, id, i) ==> id in m && m[id] == xs[i])
  }

  lemma LastOfLonger<T(!new)>(xs: seq<T>, x: T, key: T -> string, id: string, i: int)
    ensures LastOf(xs + [x], key, id, i) <==> if key(x) == id then i == |xs| else LastOf(xs, key, id, i)
    ensures NoneOf(xs + [x], key, id) <==> NoneOf(xs, key, id) && key(x) != id
  {
    assert (xs + [x])[|xs|] == x;
    assert forall j :: 0 <= j < |xs| ==> (xs + [x])[j] == xs[j];
  }

  lemma {:induction false} IndexHoldsLast<T(!new)>(xs: seq<T>, key: T -> string)
    ensures HoldsLast(IndexBy(xs, key), xs, key)
  {
    hide LastOf, NoneOf;
    if xs == [] {
      NothingIsLast(xs, key);
    } else {
      var rest, last := xs[..|xs| - 1], xs[|xs| - 1];
      IndexHoldsLast(rest, key);
      assert xs == rest + [last];
      forall id: string, i: int
        ensures NoneOf(xs, key, id) ==> id !in IndexBy(xs, key)
        ensures LastOf(xs, key, id, i) ==> i < |xs| && 0 <= i && id in IndexBy(xs, key) && IndexBy(xs, key)[id] == xs[i]
      {
        LastOfLonger(rest, last, key, id, i);
        LastIsInside(rest, key, id, i);
      }
    }
  }

  lemma NothingIsLast<T(!new)>(xs: seq<T>, key: T -> string)
    requires xs == []
    ensures forall id, i :: !LastOf(xs, key, id, i)
  {
  }

  lemma LastIsInside<T(!new)>(xs: seq<T>, key: T -> string, id: string, i: int)
    ensures LastOf(xs, key, id, i) ==> 0 <= i < |xs|
  {
  }

  lemma {:induction false} LastExists<T(!new)>(xs: seq<T>, key: T -> string, id: string) returns (i: int)
    ensures NoneOf(xs, key, id) || LastOf(xs, key, id, i)
  {
    i := |xs| - 1;
    if xs != [] && key(xs[i]) != id {
      var rest, last := xs[..i], xs[i];
      assert xs == rest + [last];
      i := LastExists(rest, key, id);
      LastOfLonger(rest, last, key, id, i);
    }
  }

  /** The lookup the code builds is the only one that holds the last entry of each id. */
  lemma HoldsLastIff<T(!new)>(m: map<string, T>, xs: seq<T>, key: T -> string)
    ensures HoldsLast(m, xs, key) <==> m == IndexBy(xs, key)
  {
    hide LastOf, NoneOf, IndexBy;
    var n := IndexBy(xs, key);
    IndexHoldsLast(xs, key);
    if HoldsLast(m, xs, key) {
      forall id ensures (id in m <==> id in n) && (id in m ==> m[id] == n[id]) {
        var i := LastExists(xs, key, id);
      }
      assert m.Keys == n.Keys;
    }
  }

  method NewContext(policy: Policy, p: Portfolio, facts: Facts) returns (c: Context)
    ensures c == ContextOf(policy, p, facts)
    ensures HoldsLast(c.channels, p.channels, (c: Channel) => c.id) && HoldsLast(c.pools, p.pools, (b: Pool) => b.id)
    ensures HoldsLast(c.profile, facts.profile, (e: Endpoint) => e.id)
    ensures HoldsLast(c.inventory, facts.inventory, (s: Summary) => s.id)
  {
    hide HoldsLast;
    var channels := Index(p.channels, (c: Channel) => c.id);
    var pools := Index(p.pools, (b: Pool) => b.id);
    var profile := Index(facts.profile, (e: Endpoint) => e.id);
    var inventory := Index(facts.inventory, (s: Summary) => s.id);
    c := Context(policy, p, facts, channels, pools, profile, inventory);
    HoldsLastIff(channels, p.channels, (c: Channel) => c.id);
    HoldsLastIff(pools, p.pools, (b: Pool) => b.id);
    HoldsLastIff(profile, facts.profile, (e: Endpoint) => e.id);
    HoldsLastIff(inventory, facts.inventory, (s: Summary) => s.id);
  }

  function Lookup<T>(m: map<string, T>, k: string): Option<T> {
    if k in m then Some(m[k]) else None
  }

  // ----- One use of an endpoint ---------------------------------------------------------------------

  /** A binding's primary route, or one of its fallbacks with the primary pool it stands in for. */
  datatype Use = Use(role: string, route: Route, primaryPool: Option<string>)

  datatype Code =
    | EndpointNotFound | EndpointUnhealthy | EndpointUnauthenticated | CapabilityMissing | CapabilityGradeInsufficient
    | CapabilityProvenanceInvalid | ToolSupportMissing | StructuredOutputMissing | AccelerationUnverified
    | UnauthorizedSourceExposure | UnauthorizedCostClass | UnauthorizedEconomicRegime | UnauthorizedMeteredFallback
    | BudgetPoolNotFound | BudgetPoolExhausted | ContextProfileNotFound | ContextProfileMismatch
    | ContextControlMismatch
    | PrefixCacheMismatch | ContextWindowInsufficient | HardwareBackendUnavailable | ResourceCapacityExceeded
    | UnknownResourceState | UnknownBudgetState | PortfolioStructureInvalid | DiversityViolation | StaleValidationState

  /** What is known of an endpoint: the machine profile first, then the inventory. */
  datatype Known = Known(ready: bool, auth: Routing.Auth, local: bool, exposure: Routing.Exposure, cost: Routing.Cost,
                         backend: Option<Backend>, verified: bool)

  function KnownOf(c: Context, id: string): Known {
    if id in c.profile then
      var e := c.profile[id];
      Known(e.ready, e.auth, e.local, e.exposure, e.cost, e.backend, e.backend.Some? && e.verified)
    else if id in c.inventory then
      var s := c.inventory[id];
      Known(s.ready, s.auth, s.local, s.exposure, s.cost, s.backend, s.verified)
    else Known(false, Routing.UnknownAuth, false, Routing.LocalOnly, Routing.LocalCompute, None, false)
  }

  /** What is reported of a use of an endpoint nobody knows: that it is not there, not healthy, not
      authenticated and of no use for acceleration, and nothing about exposure, cost or machine. */
  lemma UnknownEndpoint(c: Context, u: Use, code: Code)
    requires !Exists(c, u.route.endpoint) && !Excluded(c, u.route.endpoint)
    ensures UseBroken(c, u, EndpointNotFound) && UseBroken(c, u, EndpointUnhealthy)
    ensures UseBroken(c, u, EndpointUnauthenticated)
    ensures u.role in c.policy.requirements && c.policy.requirements[u.role].acceleration ==>
      UseBroken(c, u, AccelerationUnverified)
    ensures !EconomicsBroken(c, u, UnauthorizedSourceExposure) && !EconomicsBroken(c, u, UnauthorizedCostClass)
    ensures !MachineBroken(c, u, code)
  {
  }

  function GradedOf(cs: seq<Graded>, dimension: string): Graded {
    if cs == [] then Graded(dimension, Routing.Unknown, NoProvenance)
    else if cs[0].dimension == dimension then cs[0]
    else GradedOf(cs[1..], dimension)
  }

  predicate Exceeds(e: Routing.Exposure, limit: Option<Routing.Exposure>) {
    limit.Some? && e.Rank() > limit.value.Rank()
  }

  predicate Excluded(c: Context, id: string) {
    id in c.p.excluded
  }

  predicate Exists(c: Context, id: string) {
    id in c.profile || id in c.inventory
  }

  /** Dimension 1: every reference resolves. */
  predicate ReferenceBroken(c: Context, u: Use, code: Code) {
    match code
    case PortfolioStructureInvalid => Excluded(c, u.route.endpoint) || u.route.channel !in c.channels
    case EndpointNotFound => !Excluded(c, u.route.endpoint) && !Exists(c, u.route.endpoint)
    case ContextProfileNotFound => u.route.profile !in c.facts.profiles
    case BudgetPoolNotFound => u.route.pool !in c.pools
    case _ => false
  }

  /** Dimensions 2 and 3: the endpoint can do what the role needs, on evidence. */
  predicate CapabilityBroken(c: Context, u: Use, code: Code) {
    ViabilityBroken(KnownOf(c, u.route.endpoint), code)
    || (u.role in c.policy.requirements && NeedBroken(c, u, c.policy.requirements[u.role], code))
  }

  predicate ViabilityBroken(known: Known, code: Code) {
    match code
    case EndpointUnhealthy => !known.ready
    case EndpointUnauthenticated => !known.local && known.auth !in {Routing.Authenticated, Routing.NotApplicable}
    case _ => false
  }

  predicate NeedBroken(c: Context, u: Use, req: Requirement, code: Code) {
    var e := Lookup(c.profile, u.route.endpoint);
    match code
    case ToolSupportMissing =>
      req.toolUse
      && (e.None? || e.value.toolUse == Routing.NotShown
        || (u.route.channel in c.channels && !c.channels[u.route.channel].tools))
    case StructuredOutputMissing => req.structuredOutput && (e.None? || e.value.structuredOutput == Routing.NotShown)
    case AccelerationUnverified => req.acceleration && !KnownOf(c, u.route.endpoint).verified
    case _ =>
      req.minGrade != Routing.Unknown
      && GradeBroken(c.policy, req, e, GradedOf(if e.Some? then e.value.capabilities else [], req.dimension), code)
  }

  predicate GradeBroken(policy: Policy, req: Requirement, e: Option<Endpoint>, graded: Graded, code: Code) {
    match code
    case CapabilityMissing => graded.grade == Routing.Unknown
    case CapabilityGradeInsufficient => graded.grade != Routing.Unknown && graded.grade.Rank() < req.minGrade.Rank()
    case CapabilityProvenanceInvalid =>
      e.Some? && (graded.provenance == NoProvenance || (policy.measuredProvenance && graded.provenance == Configured))
    case _ => false
  }

  /** Dimensions 4 and 5: exposure, cost, and no silent metered fallback. */
  predicate EconomicsBroken(c: Context, u: Use, code: Code) {
    var known := KnownOf(c, u.route.endpoint);
    match code
    case UnauthorizedSourceExposure =>
      Exceeds(known.exposure, Some(c.p.maxExposure)) || Exceeds(known.exposure, c.policy.maxExposure)
    case UnauthorizedCostClass => c.policy.maxCost.Some? && known.cost.Rank() > c.policy.maxCost.value.Rank()
    case UnauthorizedMeteredFallback =>
      u.primaryPool.Some? && u.primaryPool.value in c.pools && u.route.pool in c.pools
      && c.pools[u.route.pool].regime == MeteredApi && !c.pools[u.primaryPool.value].fallbackToMetered
    case _ => false
  }

  predicate Disagree(a: Option<string>, b: Option<string>) {
    a.Some? && b.Some? && a != b
  }

  /** Dimension 6: the context profile describes this endpoint and channel, and agrees with it. */
  predicate ContextBroken(c: Context, u: Use, code: Code) {
    u.route.profile in c.facts.profiles
    && var prof := c.facts.profiles[u.route.profile];
       || (code == ContextProfileMismatch && (prof.endpoint != u.route.endpoint || prof.channel != u.route.channel))
       || (u.route.channel in c.channels && CompatibilityBroken(c.policy, c.channels[u.route.channel], prof, code))
  }

  predicate CompatibilityBroken(policy: Policy, ch: Channel, prof: ContextProfile, code: Code) {
    match code
    case ContextControlMismatch =>
      Disagree(prof.control, ch.control) || (policy.knownContextControl && (ch.control.None? || prof.control.None?))
    case PrefixCacheMismatch => Disagree(prof.cache, ch.cache)
    case ContextWindowInsufficient => policy.minContractLimit > 0 && 0 < prof.contractLimit < policy.minContractLimit
    case _ => false
  }

  /** Dimension 7: a local endpoint's accelerator is there, and verified where demanded. */
  predicate MachineBroken(c: Context, u: Use, code: Code) {
    var known := KnownOf(c, u.route.endpoint);
    known.local && known.backend.Some? && known.backend.value.Accelerator?
    && match code
       case HardwareBackendUnavailable => known.backend.value !in c.facts.backends
       case AccelerationUnverified => c.policy.verifiedAcceleration && !known.verified
       case _ => false
  }

  predicate UseBroken(c: Context, u: Use, code: Code) {
    ReferenceBroken(c, u, code) || CapabilityBroken(c, u, code) || EconomicsBroken(c, u, code)
    || ContextBroken(c, u, code)
    || MachineBroken(c, u, code)
  }

  // ----- Every diagnostic there can be -----------------------------------------------------------------

  datatype Target =
    | Input | WholePortfolio | PortfolioExposure | ChannelAt(index: nat) | PrimaryAt(index: nat)
    | FallbackAt(index: nat, fallback: nat)
    | PoolAt(index: nat) | PoolState(pool: string) | Host(id: string) | DiversityRules

  datatype Diagnostic = Diagnostic(code: Code, target: Target)

  function PrimaryUse(b: Binding): Use {
    Use(b.role, b.primary, None)
  }

  function FallbackUse(b: Binding, j: nat): Use
    requires j < |b.fallbacks|
  {
    Use(b.role, b.fallbacks[j], Some(b.primary.pool))
  }

  predicate EndpointBroken(c: Context, id: string, code: Code) {
    (code == PortfolioStructureInvalid && Excluded(c, id))
    || (code == EndpointNotFound && !Excluded(c, id) && !Exists(c, id))
  }

  predicate RegimeBroken(policy: Policy, r: Regime) {
    (policy.regimes != {} && r !in policy.regimes) || (policy.forbidMetered && r == MeteredApi)
  }

  /** A binding or one of its fallbacks draws on the pool. */
  ghost predicate Draws(b: Binding, id: string) {
    b.primary.pool == id || exists r :: r in b.fallbacks && r.pool == id
  }

  ghost predicate IsUsed(bs: seq<Binding>, id: string) {
    exists k :: 0 <= k < |bs| && Draws(bs[k], id)
  }

  predicate BudgetUnknown(c: Context, id: string) {
    c.policy.knownBudgets && c.facts.budgets.Some? && id in c.pools && c.pools[id].regime != LocalCompute
    && var st := Lookup(c.facts.budgets.value, id);
       st.None? || st.value.status == UnknownStatus
  }

  predicate BudgetSpent(c: Context, id: string) {
    c.facts.budgets.Some? && id in c.facts.budgets.value && id in c.pools && !c.pools[id].allowOverage
    && var st := c.facts.budgets.value[id];
       st.status == Exhausted || (st.remaining.Some? && st.remaining.value <= 0)
  }

  predicate HostBroken(policy: Policy, h: HostState, code: Code) {
    (code == ResourceCapacityExceeded && h.active.Some? && h.capacity.Some? && h.active.value >= h.capacity.value)
    || (code == UnknownResourceState && policy.knownResources && h.unknownMetrics)
  }

  function Lower(s: string): string {
    seq(|s|, i requires 0 <= i < |s| => if 'A' <= s[i] <= 'Z' then s[i] - 'A' + 'a' else s[i])
  }

  predicate ReviewAt(role: string, i: int)
    requires 0 <= i <= |role| - 6
  {
    Lower(role)[i..i + 6] == "review"
  }

  /** A role with "review" in its name. */
  predicate IsReview(role: string) {
    exists i :: 0 <= i <= |role| - 6 && ReviewAt(role, i)
  }

  /** Two review bindings that the diversity rules want apart. */
  predicate Alike(c: Context, rules: Diversity, a: Binding, b: Binding) {
    var x, y := Lookup(c.profile, a.primary.endpoint), Lookup(c.profile, b.primary.endpoint);
    || (rules.endpoints && a.primary.endpoint == b.primary.endpoint)
    || (x.Some? && y.Some?
        && ((rules.providers && x.value.provider != "" && x.value.provider == y.value.provider)
            || (rules.models && x.value.model != "" && x.value.model == y.value.model)))
  }

  predicate PairBroken(c: Context, rules: Diversity, i: nat, j: nat)
    requires i < j < |c.p.bindings|
  {
    var a, b := c.p.bindings[i], c.p.bindings[j];
    IsReview(a.role) && IsReview(b.role) && Alike(c, rules, a, b)
  }

  ghost predicate Broken(c: Context, d: Diagnostic) {
    match d.target
    case Input => d.code == StaleValidationState && c.facts.stale
    case WholePortfolio => d.code == PortfolioStructureInvalid && !c.p.schemaOk
    case PortfolioExposure => d.code == UnauthorizedSourceExposure && Exceeds(c.p.maxExposure, c.policy.maxExposure)
    case ChannelAt(i) => i < |c.p.channels| && EndpointBroken(c, c.p.channels[i].endpoint, d.code)
    case PrimaryAt(i) => i < |c.p.bindings| && UseBroken(c, PrimaryUse(c.p.bindings[i]), d.code)
    case FallbackAt(i, j) =>
      i < |c.p.bindings| && j < |c.p.bindings[i].fallbacks| && UseBroken(c, FallbackUse(c.p.bindings[i], j), d.code)
    case PoolAt(i) =>
      i < |c.p.pools| && d.code == UnauthorizedEconomicRegime && RegimeBroken(c.policy, c.p.pools[i].regime)
    case PoolState(id) =>
      (d.code == UnknownBudgetState && IsUsed(c.p.bindings, id) && BudgetUnknown(c, id))
      || (d.code == BudgetPoolExhausted && BudgetSpent(c, id))
    case Host(id) => id in c.facts.hosts && HostBroken(c.policy, c.facts.hosts[id], d.code)
    case DiversityRules =>
      d.code == DiversityViolation && c.p.diversity.Some?
      && exists i: nat, j: nat :: i < j < |c.p.bindings| && PairBroken(c, c.p.diversity.value, i, j)
  }

  // ----- The validator -------------------------------------------------------------------------------------

  function Noted(codes: seq<Code>, broken: bool, c: Code): (r: seq<Code>)
    ensures forall x :: x in r <==> x in codes || (broken && x == c)
  {
    if broken then codes + [c] else codes
  }

  method CheckReferences(c: Context, u: Use) returns (codes: seq<Code>)
    ensures forall x :: x in codes <==> ReferenceBroken(c, u, x)
  {
    hide Noted;
    codes := [];
    if Excluded(c, u.route.endpoint) {
      codes := Noted(codes, true, PortfolioStructureInvalid);
    } else if !Exists(c, u.route.endpoint) {
      codes := Noted(codes, true, EndpointNotFound);
    }
    codes := Noted(codes, u.route.channel !in c.channels, PortfolioStructureInvalid);
    codes := Noted(codes, u.route.profile !in c.facts.profiles, ContextProfileNotFound);
    codes := Noted(codes, u.route.pool !in c.pools, BudgetPoolNotFound);
  }

  method CheckCapability(c: Context, u: Use) returns (codes: seq<Code>)
    ensures forall x :: x in codes <==> CapabilityBroken(c, u, x)
  {
    hide NeedBroken, KnownOf;
    codes := CheckViability(KnownOf(c, u.route.endpoint));
    if u.role in c.policy.requirements {
      var needs := CheckNeeds(c, u, c.policy.requirements[u.role]);
      codes := codes + needs;
    }
  }

  method CheckViability(known: Known) returns (codes: seq<Code>)
    ensures forall x :: x in codes <==> ViabilityBroken(known, x)
  {
    hide Noted;
    codes := Noted([], !known.ready, EndpointUnhealthy);
    if !known.local {
      codes := Noted(codes, known.auth !in {Routing.Authenticated, Routing.NotApplicable}, EndpointUnauthenticated);
    }
  }

  method CheckNeeds(c: Context, u: Use, req: Requirement) returns (codes: seq<Code>)
    ensures forall x :: x in codes <==> NeedBroken(c, u, req, x)
  {
    hide Noted, KnownOf, GradedOf, GradeBroken;
    var e := Lookup(c.profile, u.route.endpoint);
    codes := [];
    if req.toolUse {
      codes := Noted(codes, e.None? || e.value.toolUse == Routing.NotShown, ToolSupportMissing);
      codes := Noted(codes, u.route.channel in c.channels && !c.channels[u.route.channel].tools, ToolSupportMissing);
    }
    if req.structuredOutput {
      codes := Noted(codes, e.None? || e.value.structuredOutput == Routing.NotShown, StructuredOutputMissing);
    }
    codes := Noted(codes, req.acceleration && !KnownOf(c, u.route.endpoint).verified, AccelerationUnverified);
    if req.minGrade != Routing.Unknown {
      var graded := CheckGrade(c.policy, req, e);
      codes := codes + graded;
    }
  }

  method CheckGrade(policy: Policy, req: Requirement, e: Option<Endpoint>) returns (codes: seq<Code>)
    ensures forall x :: x in codes <==>
      GradeBroken(policy, req, e, GradedOf(if e.Some? then e.value.capabilities else [], req.dimension), x)
    ensures ToolSupportMissing !in codes && StructuredOutputMissing !in codes && AccelerationUnverified !in codes
  {
    hide Noted;
    if e.None? {
      return [CapabilityMissing];
    }
    var graded := GradedOf(e.value.capabilities, req.dimension);
    if graded.grade == Routing.Unknown {
      codes := Noted([], true, CapabilityMissing);
    } else {
      codes := Noted([], graded.grade.Rank() < req.minGrade.Rank(), CapabilityGradeInsufficient);
    }
    if graded.provenance == NoProvenance {
      codes := Noted(codes, true, CapabilityProvenanceInvalid);
    } else {
      codes := Noted(codes, policy.measuredProvenance && graded.provenance !in {Measured, Evaluated},
                     CapabilityProvenanceInvalid);
    }
  }

  method CheckEconomics(c: Context, u: Use) returns (codes: seq<Code>)
    ensures forall x :: x in codes <==> EconomicsBroken(c, u, x)
  {
    hide Noted, KnownOf;
    var known := KnownOf(c, u.route.endpoint);
    codes := Noted([], known.exposure.Rank() > c.p.maxExposure.Rank(), UnauthorizedSourceExposure);
    codes := Noted(codes, Exceeds(known.exposure, c.policy.maxExposure), UnauthorizedSourceExposure);
    if c.policy.maxCost.Some? {
      codes := Noted(codes, known.cost.Rank() > c.policy.maxCost.value.Rank(), UnauthorizedCostClass);
    }
    if u.primaryPool.Some? && u.primaryPool.value in c.pools && u.route.pool in c.pools {
      codes := Noted(codes, c.pools[u.route.pool].regime == MeteredApi
                            && !c.pools[u.primaryPool.value].fallbackToMetered,
                     UnauthorizedMeteredFallback);
    }
  }

  method CheckContext(c: Context, u: Use) returns (codes: seq<Code>)
    ensures forall x :: x in codes <==> ContextBroken(c, u, x)
  {
    hide Noted, CompatibilityBroken;
    if u.route.profile !in c.facts.profiles {
      return [];
    }
    var prof := c.facts.profiles[u.route.profile];
    codes := Noted([], prof.endpoint != u.route.endpoint || prof.channel != u.route.channel, ContextProfileMismatch);
    if u.route.channel in c.channels {
      var compatibility := CheckCompatibility(c.policy, c.channels[u.route.channel], prof);
      codes := codes + compatibility;
    }
  }

  method CheckCompatibility(policy: Policy, ch: Channel, prof: ContextProfile) returns (codes: seq<Code>)
    ensures forall x :: x in codes <==> CompatibilityBroken(policy, ch, prof, x)
  {
    hide Noted, Disagree;
    codes := Noted([], Disagree(prof.control, ch.control), ContextControlMismatch);
    if policy.knownContextControl {
      codes := Noted(codes, ch.control.None? || prof.control.None?, ContextControlMismatch);
    }
    codes := Noted(codes, Disagree(prof.cache, ch.cache), PrefixCacheMismatch);
    if policy.minContractLimit > 0 {
      codes := Noted(codes, 0 < prof.contractLimit < policy.minContractLimit, ContextWindowInsufficient);
    }
  }

  method CheckMachine(c: Context, u: Use) returns (codes: seq<Code>)
    ensures forall x :: x in codes <==> MachineBroken(c, u, x)
  {
    hide Noted, KnownOf;
    codes := [];
    var known := KnownOf(c, u.route.endpoint);
    if known.local {
      if known.backend.Some? && known.backend.value.Accelerator? {
        codes := Noted(codes, known.backend.value !in c.facts.backends, HardwareBackendUnavailable);
        codes := Noted(codes, c.policy.verifiedAcceleration && !known.verified, AccelerationUnverified);
      }
    }
  }

  method CheckUse(c: Context, u: Use) returns (codes: seq<Code>)
    ensures forall x :: x in codes <==> UseBroken(c, u, x)
  {
    hide ReferenceBroken, CapabilityBroken, EconomicsBroken, ContextBroken, MachineBroken;
    var references := CheckReferences(c, u);
    var capability := CheckCapability(c, u);
    var economics := CheckEconomics(c, u);
    var context := CheckContext(c, u);
    var machine := CheckMachine(c, u);
    codes := references + capability + economics + context + machine;
  }

  /** The diagnostics of one target. */
  function At(target: Target, codes: seq<Code>): (ds: seq<Diagnostic>)
    ensures forall d :: d in ds <==> d.target == target && d.code in codes
  {
    if codes == [] then []
    else
      assert codes == codes[..|codes| - 1] + [codes[|codes| - 1]];
      At(target, codes[..|codes| - 1]) + [Diagnostic(codes[|codes| - 1], target)]
  }

  method CheckChannels(c: Context) returns (ds: seq<Diagnostic>)
    ensures forall d :: d in ds <==> d.target.ChannelAt? && Broken(c, d)
  {
    hide Noted;
    ds := [];
    for i := 0 to |c.p.channels|
      invariant forall d :: d in ds <==> d.target.ChannelAt? && d.target.index < i && Broken(c, d)
    {
      var id := c.p.channels[i].endpoint;
      var codes := if Excluded(c, id) then [PortfolioStructureInvalid] else if !Exists(c, id) then [EndpointNotFound]
        else [];
      assert forall x :: x in codes <==> EndpointBroken(c, id, x);
      ds := ds + At(ChannelAt(i), codes);
    }
  }

  predicate OfBinding(t: Target, i: nat) {
    (t.PrimaryAt? || t.FallbackAt?) && t.index == i
  }

  method CheckBinding(c: Context, i: nat) returns (ds: seq<Diagnostic>)
    requires i < |c.p.bindings|
    ensures forall d :: d in ds <==> OfBinding(d.target, i) && Broken(c, d)
  {
    hide UseBroken, At;
    var b := c.p.bindings[i];
    var codes := CheckUse(c, PrimaryUse(b));
    ds := At(PrimaryAt(i), codes);
    for j := 0 to |b.fallbacks|
      invariant forall d ::
        d in ds <==> OfBinding(d.target, i) && (d.target.FallbackAt? ==> d.target.fallback < j) && Broken(c, d)
    {
      codes := CheckUse(c, FallbackUse(b, j));
      ds := ds + At(FallbackAt(i, j), codes);
    }
  }

  method CheckBindings(c: Context) returns (ds: seq<Diagnostic>)
    ensures forall d :: d in ds <==> (d.target.PrimaryAt? || d.target.FallbackAt?) && Broken(c, d)
  {
    hide UseBroken;
    ds := [];
    for i := 0 to |c.p.bindings|
      invariant forall d ::
        d in ds <==> (d.target.PrimaryAt? || d.target.FallbackAt?) && d.target.index < i && Broken(c, d)
    {
      var own := CheckBinding(c, i);
      ds := ds + own;
    }
  }

  method CheckRegimes(c: Context) returns (ds: seq<Diagnostic>)
    ensures forall d :: d in ds <==> d.target.PoolAt? && Broken(c, d)
  {
    ds := [];
    for i := 0 to |c.p.pools|
      invariant forall d :: d in ds <==> d.target.PoolAt? && d.target.index < i && Broken(c, d)
    {
      if RegimeBroken(c.policy, c.p.pools[i].regime) {
        ds := ds + [Diagnostic(UnauthorizedEconomicRegime, PoolAt(i))];
      }
    }
  }

  /** The pools of all bindings and fallbacks. */
  method CollectPools(bs: seq<Binding>) returns (used: set<string>)
    ensures forall id :: id in used <==> IsUsed(bs, id)
  {
    hide Draws;
    used := {};
    for k := 0 to |bs|
      invariant forall id :: id in used <==> IsUsed(bs[..k], id)
    {
      var more := CollectPoolsOf(bs[k]);
      assert forall id :: IsUsed(bs[..k + 1], id) <==> IsUsed(bs[..k], id) || Draws(bs[k], id) by {
        OneMoreUses(bs, k);
      }
      used := used + more;
    }
    assert bs[..|bs|] == bs;
  }

  method CollectPoolsOf(b: Binding) returns (used: set<string>)
    ensures forall id :: id in used <==> Draws(b, id)
  {
    used := {b.primary.pool};
    for j := 0 to |b.fallbacks|
      invariant forall id :: id in used <==> b.primary.pool == id || exists i :: 0 <= i < j && b.fallbacks[i].pool == id
    {
      used := used + {b.fallbacks[j].pool};
    }
  }

  lemma OneMoreUses(bs: seq<Binding>, k: nat)
    requires k < |bs|
    ensures forall id :: IsUsed(bs[..k + 1], id) <==> IsUsed(bs[..k], id) || Draws(bs[k], id)
  {
    hide Draws;
    assert forall i :: 0 <= i < k ==> bs[..k + 1][i] == bs[..k][i];
    forall id | IsUsed(bs[..k], id) ensures IsUsed(bs[..k + 1], id) {
      var i :| 0 <= i < k && Draws(bs[..k][i], id);
      assert Draws(bs[..k + 1][i], id);
    }
    forall id | Draws(bs[k], id) ensures IsUsed(bs[..k + 1], id) {
      assert bs[..k + 1][k] == bs[k];
    }
  }

  method CheckBudgets(c: Context) returns (ds: seq<Diagnostic>)
    ensures forall d :: d in ds <==> d.target.PoolState? && Broken(c, d)
  {
    hide IsUsed, BudgetUnknown, BudgetSpent;
    var unknown := CheckUnknownBudgets(c);
    var spent := CheckSpentBudgets(c);
    ds := unknown + spent;
  }

  method CheckUnknownBudgets(c: Context) returns (ds: seq<Diagnostic>)
    ensures forall d :: d in ds <==>
      d.target.PoolState? && d.code == UnknownBudgetState && IsUsed(c.p.bindings, d.target.pool)
      && BudgetUnknown(c, d.target.pool)
  {
    hide IsUsed, BudgetUnknown;
    ds := [];
    if !c.policy.knownBudgets || c.facts.budgets.None? {
      NothingUnknown(c);
      return;
    }
    var left := CollectPools(c.p.bindings);
    ghost var used := left;
    while left != {}
      invariant left <= used
      invariant forall d :: d in ds <==>
        d.target.PoolState? && d.code == UnknownBudgetState && d.target.pool in used && d.target.pool !in left
        && BudgetUnknown(c, d.target.pool)
      decreases |left|
    {
      var id :| id in left;
      UnknownIff(c, id);
      if id in c.pools && c.pools[id].regime != LocalCompute {
        if id !in c.facts.budgets.value || c.facts.budgets.value[id].status == UnknownStatus {
          ds := ds + [Diagnostic(UnknownBudgetState, PoolState(id))];
        }
      }
      left := left - {id};
    }
  }

  lemma NothingUnknown(c: Context)
    requires !c.policy.knownBudgets || c.facts.budgets.None?
    ensures forall id :: !BudgetUnknown(c, id)
  {
  }

  lemma UnknownIff(c: Context, id: string)
    requires c.policy.knownBudgets && c.facts.budgets.Some?
    ensures BudgetUnknown(c, id) <==>
      id in c.pools && c.pools[id].regime != LocalCompute
      && (id !in c.facts.budgets.value || c.facts.budgets.value[id].status == UnknownStatus)
  {
  }

  method CheckSpentBudgets(c: Context) returns (ds: seq<Diagnostic>)
    ensures forall d :: d in ds <==>
      d.target.PoolState? && d.code == BudgetPoolExhausted && BudgetSpent(c, d.target.pool)
  {
    ds := [];
    if c.facts.budgets.None? {
      return;
    }
    hide BudgetSpent;
    SpentPoolsExist(c);
    var left := c.pools.Keys;
    while left != {}
      invariant left <= c.pools.Keys
      invariant forall d :: d in ds <==>
        d.target.PoolState? && d.code == BudgetPoolExhausted && d.target.pool in c.pools && d.target.pool !in left
        && BudgetSpent(c, d.target.pool)
      decreases |left|
    {
      var id :| id in left;
      SpentIff(c, id);
      if id in c.facts.budgets.value && !c.pools[id].allowOverage {
        var state := c.facts.budgets.value[id];
        if state.status == Exhausted || (state.remaining.Some? && state.remaining.value <= 0) {
          ds := ds + [Diagnostic(BudgetPoolExhausted, PoolState(id))];
        }
      }
      left := left - {id};
    }
  }

  lemma SpentIff(c: Context, id: string)
    requires id in c.pools && c.facts.budgets.Some?
    ensures BudgetSpent(c, id) <==>
      id in c.facts.budgets.value && !c.pools[id].allowOverage
      && (c.facts.budgets.value[id].status == Exhausted
          || (c.facts.budgets.value[id].remaining.Some? && c.facts.budgets.value[id].remaining.value <= 0))
  {
  }

  lemma SpentPoolsExist(c: Context)
    ensures forall id :: BudgetSpent(c, id) ==> id in c.pools
  {
  }

  method CheckHosts(c: Context) returns (ds: seq<Diagnostic>)
    ensures forall d :: d in ds <==> d.target.Host? && Broken(c, d)
  {
    hide Noted, At;
    ds := [];
    var left := c.facts.hosts.Keys;
    while left != {}
      invariant left <= c.facts.hosts.Keys
      invariant forall d :: d in ds <==>
        d.target.Host? && d.target.id in c.facts.hosts && d.target.id !in left
        && HostBroken(c.policy, c.facts.hosts[d.target.id], d.code)
      decreases |left|
    {
      var id :| id in left;
      var h := c.facts.hosts[id];
      var codes := [];
      if h.active.Some? && h.capacity.Some? {
        codes := Noted(codes, h.active.value >= h.capacity.value, ResourceCapacityExceeded);
      }
      codes := Noted(codes, c.policy.knownResources && h.unknownMetrics, UnknownResourceState);
      assert forall x :: x in codes <==> HostBroken(c.policy, h, x);
      ds := ds + At(Host(id), codes);
      left := left - {id};
    }
  }

  method CheckDiversity(c: Context) returns (ds: seq<Diagnostic>)
    ensures forall d :: d in ds <==> d.target.DiversityRules? && Broken(c, d)
  {
    if c.p.diversity.None? {
      return [];
    }
    hide IsReview, Alike;
    var rules := c.p.diversity.value;
    ds := [];
    for i := 0 to |c.p.bindings|
      invariant forall d :: d in ds ==> d == Diagnostic(DiversityViolation, DiversityRules)
      invariant ds != [] <==> exists k: nat, l: nat :: k < i && k < l < |c.p.bindings| && PairBroken(c, rules, k, l)
    {
      ghost var before := ds;
      for j := i + 1 to |c.p.bindings|
        invariant forall d :: d in ds ==> d == Diagnostic(DiversityViolation, DiversityRules)
        invariant ds != [] <==> before != [] || exists l: nat :: i < l < j && PairBroken(c, rules, i, l)
      {
        if PairBroken(c, rules, i, j) {
          ds := ds + [Diagnostic(DiversityViolation, DiversityRules)];
        }
      }
    }
    assert ds != [] ==> ds[0] in ds;
  }

  /** Validate: what is reported is exactly what is broken. */
  method Validate(p: Option<Portfolio>, policy: Option<Policy>, facts: Facts) returns (ds: seq<Diagnostic>)
    ensures p.None? ==> ds == [Diagnostic(PortfolioStructureInvalid, WholePortfolio)]
    ensures p.Some? ==> forall d :: d in ds <==> Broken(ContextOf(Effective(policy), p.value, facts), d)
  {
    if p.None? {
      return [Diagnostic(PortfolioStructureInvalid, WholePortfolio)];
    }
    var c := NewContext(Effective(policy), p.value, facts);
    ds := CheckAll(c);
  }

  method CheckAll(c: Context) returns (ds: seq<Diagnostic>)
    ensures forall d :: d in ds <==> Broken(c, d)
  {
    ds := [];
    if c.facts.stale {
      ds := ds + [Diagnostic(StaleValidationState, Input)];
    }
    if !c.p.schemaOk {
      ds := ds + [Diagnostic(PortfolioStructureInvalid, WholePortfolio)];
    }
    if Exceeds(c.p.maxExposure, c.policy.maxExposure) {
      ds := ds + [Diagnostic(UnauthorizedSourceExposure, PortfolioExposure)];
    }
    assert forall d ::
      d in ds <==> (d.target.Input? || d.target.WholePortfolio? || d.target.PortfolioExposure?) && Broken(c, d);
    hide Broken;
    var channels := CheckChannels(c);
    var bindings := CheckBindings(c);
    var regimes := CheckRegimes(c);
    var budgets := CheckBudgets(c);
    var hosts := CheckHosts(c);
    var diversity := CheckDiversity(c);
    ds := ds + channels + bindings + regimes + budgets + hosts + diversity;
  }

  // ----- What a valid portfolio is -----------------------------------------------------------------------

  ghost predicate Used(p: Portfolio, u: Use) {
    exists b :: b in p.bindings && (u == PrimaryUse(b) || exists j: nat :: j < |b.fallbacks| && u == FallbackUse(b, j))
  }

  ghost predicate References(c: Context, u: Use) {
    && !Excluded(c, u.route.endpoint) && Exists(c, u.route.endpoint)
    && u.route.channel in c.channels && u.route.profile in c.facts.profiles && u.route.pool in c.pools
  }

  /** The endpoint can fill the role: tools and structured output are shown, and the grade is
      known, sufficient and evidenced. */
  ghost predicate Fills(c: Context, u: Use, req: Requirement)
    requires References(c, u)
  {
    && (req.toolUse || req.structuredOutput || req.minGrade != Routing.Unknown ==> u.route.endpoint in c.profile)
    && (req.toolUse ==> c.channels[u.route.channel].tools && c.profile[u.route.endpoint].toolUse != Routing.NotShown)
    && (req.structuredOutput ==> c.profile[u.route.endpoint].structuredOutput != Routing.NotShown)
    && (req.acceleration ==> KnownOf(c, u.route.endpoint).verified)
    && (req.minGrade != Routing.Unknown ==>
          var graded := GradedOf(c.profile[u.route.endpoint].capabilities, req.dimension);
          && graded.grade != Routing.Unknown && graded.grade.Rank() >= req.minGrade.Rank()
          && (if c.policy.measuredProvenance then graded.provenance in {Measured, Evaluated}
            else graded.provenance != NoProvenance))
  }

  ghost predicate Capable(c: Context, u: Use)
    requires References(c, u)
  {
    var known := KnownOf(c, u.route.endpoint);
    && known.ready && (known.local || known.auth in {Routing.Authenticated, Routing.NotApplicable})
    && (u.role in c.policy.requirements ==> Fills(c, u, c.policy.requirements[u.role]))
  }

  /** Within both exposure limits and the cost limit, and no metered fallback unasked. */
  ghost predicate Affordable(c: Context, u: Use)
    requires References(c, u)
  {
    var known := KnownOf(c, u.route.endpoint);
    && known.exposure.Rank() <= c.p.maxExposure.Rank()
    && (c.policy.maxExposure.Some? ==> known.exposure.Rank() <= c.policy.maxExposure.value.Rank())
    && (c.policy.maxCost.Some? ==> known.cost.Rank() <= c.policy.maxCost.value.Rank())
    && (u.primaryPool.Some? && u.primaryPool.value in c.pools && c.pools[u.route.pool].regime == MeteredApi ==>
          c.pools[u.primaryPool.value].fallbackToMetered)
  }

  /** The context profile describes this route, and what both sides know agrees. */
  ghost predicate Described(c: Context, u: Use)
    requires References(c, u)
  {
    var prof, ch := c.facts.profiles[u.route.profile], c.channels[u.route.channel];
    && prof.endpoint == u.route.endpoint && prof.channel == u.route.channel
    && (prof.control == ch.control || (!c.policy.knownContextControl && (prof.control.None? || ch.control.None?)))
    && (c.policy.knownContextControl ==> prof.control.Some?)
    && (prof.cache == ch.cache || prof.cache.None? || ch.cache.None?)
    && (prof.contractLimit > 0 ==> prof.contractLimit >= c.policy.minContractLimit)
  }

  ghost predicate Hosted(c: Context, u: Use) {
    var known := KnownOf(c, u.route.endpoint);
    known.local && known.backend.Some? && known.backend.value.Accelerator? ==>
      known.backend.value in c.facts.backends && (c.policy.verifiedAcceleration ==> known.verified)
  }

  /** One use of an endpoint, said positively. */
  ghost predicate UseSound(c: Context, u: Use) {
    References(c, u) && Capable(c, u) && Affordable(c, u) && Described(c, u) && Hosted(c, u)
  }

  lemma UseSoundIff(c: Context, u: Use)
    ensures UseSound(c, u) <==> forall x :: !UseBroken(c, u, x)
  {
    hide References, Capable, Affordable, Described, Hosted;
    hide ReferenceBroken, CapabilityBroken, EconomicsBroken, ContextBroken, MachineBroken;
    ReferencesIff(c, u);
    HostedIff(c, u);
    if References(c, u) {
      CapableIff(c, u);
      AffordableIff(c, u);
      DescribedIff(c, u);
    }
    if forall x :: !UseBroken(c, u, x) {
      forall x
        ensures !ReferenceBroken(c, u, x) && !CapabilityBroken(c, u, x) && !EconomicsBroken(c, u, x)
        ensures !ContextBroken(c, u, x)
        && !MachineBroken(c, u, x)
      {
        assert !UseBroken(c, u, x);
      }
    }
  }

  lemma ReferencesIff(c: Context, u: Use)
    ensures References(c, u) <==> forall x :: !ReferenceBroken(c, u, x)
  {
    if forall x :: !ReferenceBroken(c, u, x) {
      assert !ReferenceBroken(c, u, PortfolioStructureInvalid) && !ReferenceBroken(c, u, EndpointNotFound)
          && !ReferenceBroken(c, u, ContextProfileNotFound) && !ReferenceBroken(c, u, BudgetPoolNotFound);
    }
  }

  lemma CapableIff(c: Context, u: Use)
    requires References(c, u)
    ensures Capable(c, u) <==> forall x :: !CapabilityBroken(c, u, x)
  {
    hide References, Fills, NeedBroken, KnownOf;
    if u.role in c.policy.requirements {
      FillsIff(c, u, c.policy.requirements[u.role]);
    }
    if forall x :: !CapabilityBroken(c, u, x) {
      assert !CapabilityBroken(c, u, EndpointUnhealthy) && !CapabilityBroken(c, u, EndpointUnauthenticated);
      forall x ensures u.role in c.policy.requirements ==> !NeedBroken(c, u, c.policy.requirements[u.role], x) {
        assert !CapabilityBroken(c, u, x);
      }
    }
  }

  lemma FillsIff(c: Context, u: Use, req: Requirement)
    requires References(c, u)
    ensures Fills(c, u, req) <==> forall x :: !NeedBroken(c, u, req, x)
  {
    hide KnownOf;
    if forall x :: !NeedBroken(c, u, req, x) {
      assert !NeedBroken(c, u, req, ToolSupportMissing) && !NeedBroken(c, u, req, StructuredOutputMissing)
          && !NeedBroken(c, u, req, AccelerationUnverified) && !NeedBroken(c, u, req, CapabilityMissing)
          && !NeedBroken(c, u, req, CapabilityGradeInsufficient) && !NeedBroken(c, u, req, CapabilityProvenanceInvalid);
    }
  }

  lemma AffordableIff(c: Context, u: Use)
    requires References(c, u)
    ensures Affordable(c, u) <==> forall x :: !EconomicsBroken(c, u, x)
  {
    hide KnownOf;
    if forall x :: !EconomicsBroken(c, u, x) {
      assert !EconomicsBroken(c, u, UnauthorizedSourceExposure) && !EconomicsBroken(c, u, UnauthorizedCostClass)
          && !EconomicsBroken(c, u, UnauthorizedMeteredFallback);
    }
  }

  lemma DescribedIff(c: Context, u: Use)
    requires References(c, u)
    ensures Described(c, u) <==> forall x :: !ContextBroken(c, u, x)
  {
    if forall x :: !ContextBroken(c, u, x) {
      assert !ContextBroken(c, u, ContextProfileMismatch) && !ContextBroken(c, u, ContextControlMismatch)
          && !ContextBroken(c, u, PrefixCacheMismatch) && !ContextBroken(c, u, ContextWindowInsufficient);
    }
  }

  lemma HostedIff(c: Context, u: Use)
    ensures Hosted(c, u) <==> forall x :: !MachineBroken(c, u, x)
  {
    hide KnownOf;
    if forall x :: !MachineBroken(c, u, x) {
      assert !MachineBroken(c, u, HardwareBackendUnavailable) && !MachineBroken(c, u, AccelerationUnverified);
    }
  }

  predicate HostFine(policy: Policy, h: HostState) {
    (h.active.Some? && h.capacity.Some? ==> h.active.value < h.capacity.value)
    && (policy.knownResources ==> !h.unknownMetrics)
  }

  predicate IsListed(c: Context, endpoint: string) {
    endpoint !in c.p.excluded && (endpoint in c.profile || endpoint in c.inventory)
  }

  predicate Allows(policy: Policy, r: Regime) {
    (policy.regimes == {} || r in policy.regimes) && !(policy.forbidMetered && r.MeteredApi?)
  }

  /** Where budgets are to be known and are observed at all, this one is, unless it costs nothing. */
  predicate BudgetKnown(c: Context, id: string) {
    c.policy.knownBudgets && c.facts.budgets.Some? && id in c.pools && !c.pools[id].regime.LocalCompute? ==>
      id in c.facts.budgets.value && !c.facts.budgets.value[id].status.UnknownStatus?
  }

  /** The pool is not observed, may be overdrawn, or has something left. */
  predicate HasFunds(c: Context, id: string)
    requires id in c.pools
  {
    c.facts.budgets.Some? && id in c.facts.budgets.value && !c.pools[id].allowOverage ==>
      var state := c.facts.budgets.value[id];
      !state.status.Exhausted? && (state.remaining.Some? ==> state.remaining.value > 0)
  }

  /** Two bindings that both review are as different as the rules want them. What the profile does
      not know of an endpoint keeps nothing apart. */
  ghost predicate Apart(c: Context, rules: Diversity, a: Binding, b: Binding) {
    IsReview(a.role) && IsReview(b.role) ==>
      && (rules.endpoints ==> a.primary.endpoint != b.primary.endpoint)
      && (a.primary.endpoint in c.profile && b.primary.endpoint in c.profile ==>
            var x, y := c.profile[a.primary.endpoint], c.profile[b.primary.endpoint];
            && (rules.providers ==> x.provider == "" || x.provider != y.provider)
            && (rules.models ==> x.model == "" || x.model != y.model))
  }

  lemma ApartIff(c: Context, rules: Diversity, i: nat, j: nat)
    requires i < j < |c.p.bindings|
    ensures Apart(c, rules, c.p.bindings[i], c.p.bindings[j]) <==> !PairBroken(c, rules, i, j)
  {
    hide IsReview;
  }

  lemma AllApartIff(c: Context, rules: Diversity)
    ensures (forall i: nat, j: nat :: i < j < |c.p.bindings| ==> Apart(c, rules, c.p.bindings[i], c.p.bindings[j]))
            <==> forall i: nat, j: nat :: i < j < |c.p.bindings| ==> !PairBroken(c, rules, i, j)
  {
    hide Apart, PairBroken;
    forall i: nat, j: nat | i < j < |c.p.bindings|
      ensures Apart(c, rules, c.p.bindings[i], c.p.bindings[j]) <==> !PairBroken(c, rules, i, j)
    {
      ApartIff(c, rules, i, j);
    }
  }

  /** A role reviews when its name contains "review" in any mixture of cases. */
  lemma IsReviewIff(role: string)
    ensures IsReview(role) <==> exists i :: ReviewSpelled(role, i)
  {
    forall i | 0 <= i <= |role| - 6 ensures ReviewAt(role, i) <==> ReviewSpelled(role, i) {
      SpelledIff(role, i);
    }
  }

  ghost predicate ReviewSpelled(role: string, i: int) {
    && 0 <= i <= |role| - 6
    && role[i] in "rR" && role[i + 1] in "eE" && role[i + 2] in "vV"
    && role[i + 3] in "iI" && role[i + 4] in "eE" && role[i + 5] in "wW"
  }

  lemma SpelledIff(role: string, i: int)
    requires 0 <= i <= |role| - 6
    ensures ReviewAt(role, i) <==> ReviewSpelled(role, i)
  {
    var l := Lower(role);
    var w := l[i..i + 6];
    assert forall k :: 0 <= k < 6 ==> w[k] == l[i + k];
    assert w == "review" <==>
      w[0] == 'r' && w[1] == 'e' && w[2] == 'v' && w[3] == 'i' && w[4] == 'e' && w[5] == 'w';
  }

  /** The whole portfolio, said positively: every channel, every binding and fallback, every
      pool, every host, and every pair of reviewers. */
  ghost predicate Sound(c: Context) {
    && !c.facts.stale && c.p.schemaOk && !Exceeds(c.p.maxExposure, c.policy.maxExposure)
    && (forall ch :: ch in c.p.channels ==> IsListed(c, ch.endpoint))
    && (forall u :: Used(c.p, u) ==> UseSound(c, u))
    && (forall b :: b in c.p.pools ==> Allows(c.policy, b.regime))
    && (forall b :: b in c.p.bindings ==>
          BudgetKnown(c, b.primary.pool) && forall r :: r in b.fallbacks ==> BudgetKnown(c, r.pool))
    && (forall id :: id in c.pools ==> HasFunds(c, id))
    && (forall id :: id in c.facts.hosts ==> HostFine(c.policy, c.facts.hosts[id]))
    && (c.p.diversity.Some? ==>
      forall i: nat, j: nat :: i < j < |c.p.bindings| ==>
        Apart(c, c.p.diversity.value, c.p.bindings[i], c.p.bindings[j]))
  }

  /** Nothing is reported exactly when the portfolio is sound. */
  lemma ValidIffSound(c: Context)
    ensures Sound(c) <==> forall d :: !Broken(c, d)
  {
    if Sound(c) {
      forall d ensures !Broken(c, d) {
        SoundReportsNothing(c, d);
      }
    }
    if forall d :: !Broken(c, d) {
      NothingReportedIsSound(c);
    }
  }

  lemma SoundReportsNothing(c: Context, d: Diagnostic)
    requires Sound(c)
    ensures !Broken(c, d)
  {
    hide UseSound, UseBroken, PairBroken, Used, Apart;
    if c.p.diversity.Some? {
      AllApartIff(c, c.p.diversity.value);
    }
    match d.target
    case ChannelAt(i) =>
      assert i < |c.p.channels| ==> c.p.channels[i] in c.p.channels;
    case PrimaryAt(i) =>
      if i < |c.p.bindings| {
        UsesAreUsed(c.p, i);
        UseSoundIff(c, PrimaryUse(c.p.bindings[i]));
      }
    case FallbackAt(i, j) =>
      if i < |c.p.bindings| && j < |c.p.bindings[i].fallbacks| {
        UsesAreUsed(c.p, i);
        UseSoundIff(c, FallbackUse(c.p.bindings[i], j));
      }
    case PoolAt(i) =>
      assert i < |c.p.pools| ==> c.p.pools[i] in c.p.pools;
    case _ =>
  }

  lemma UsesAreUsed(p: Portfolio, i: nat)
    requires i < |p.bindings|
    ensures Used(p, PrimaryUse(p.bindings[i]))
    ensures forall j: nat :: j < |p.bindings[i].fallbacks| ==> Used(p, FallbackUse(p.bindings[i], j))
  {
    assert p.bindings[i] in p.bindings;
  }

  lemma NothingReportedIsSound(c: Context)
    requires forall d :: !Broken(c, d)
    ensures Sound(c)
  {
    hide Broken, UseSound, BudgetKnown, HasFunds, PairBroken, Allows, IsListed, HostFine;
    hide Used, Exceeds, Apart;
    PortfolioFine(c);
    if c.p.diversity.Some? {
      AllApartIff(c, c.p.diversity.value);
    }
    ChannelsFine(c);
    PoolsFine(c);
    HostsFine(c);
    forall u | Used(c.p, u) ensures UseSound(c, u) {
      NothingReportedAbout(c, u);
    }
  }

  lemma PortfolioFine(c: Context)
    requires forall d :: !Broken(c, d)
    ensures !c.facts.stale && c.p.schemaOk && !Exceeds(c.p.maxExposure, c.policy.maxExposure)
    ensures c.p.diversity.Some? ==>
      forall i: nat, j: nat :: i < j < |c.p.bindings| ==> !PairBroken(c, c.p.diversity.value, i, j)
  {
    hide PairBroken, Exceeds;
    assert !Broken(c, Diagnostic(StaleValidationState, Input))
        && !Broken(c, Diagnostic(PortfolioStructureInvalid, WholePortfolio))
        && !Broken(c, Diagnostic(UnauthorizedSourceExposure, PortfolioExposure))
        && !Broken(c, Diagnostic(DiversityViolation, DiversityRules));
  }

  lemma ChannelsFine(c: Context)
    requires forall d :: !Broken(c, d)
    ensures forall ch :: ch in c.p.channels ==> IsListed(c, ch.endpoint)
  {
    forall ch | ch in c.p.channels ensures IsListed(c, ch.endpoint) {
      var i :| 0 <= i < |c.p.channels| && c.p.channels[i] == ch;
      assert !Broken(c, Diagnostic(PortfolioStructureInvalid, ChannelAt(i)))
        && !Broken(c, Diagnostic(EndpointNotFound, ChannelAt(i)));
    }
  }

  lemma PoolsFine(c: Context)
    requires forall d :: !Broken(c, d)
    ensures forall b :: b in c.p.pools ==> Allows(c.policy, b.regime)
    ensures forall b :: b in c.p.bindings ==>
      BudgetKnown(c, b.primary.pool) && forall r :: r in b.fallbacks ==> BudgetKnown(c, r.pool)
    ensures forall id :: id in c.pools ==> HasFunds(c, id)
  {
    hide Draws;
    forall b | b in c.p.pools ensures Allows(c.policy, b.regime) {
      var i :| 0 <= i < |c.p.pools| && c.p.pools[i] == b;
      assert !Broken(c, Diagnostic(UnauthorizedEconomicRegime, PoolAt(i)));
    }
    forall id ensures (IsUsed(c.p.bindings, id) ==> BudgetKnown(c, id)) && (id in c.pools ==> HasFunds(c, id)) {
      assert !Broken(c, Diagnostic(UnknownBudgetState, PoolState(id)));
      assert !Broken(c, Diagnostic(BudgetPoolExhausted, PoolState(id)));
    }
    forall b | b in c.p.bindings
      ensures BudgetKnown(c, b.primary.pool) && forall r :: r in b.fallbacks ==> BudgetKnown(c, r.pool)
    {
      var i :| 0 <= i < |c.p.bindings| && c.p.bindings[i] == b;
      DrawsOn(b);
      forall id | Draws(b, id) ensures BudgetKnown(c, id) {
        assert IsUsed(c.p.bindings, id);
      }
    }
  }

  lemma DrawsOn(b: Binding)
    ensures Draws(b, b.primary.pool) && forall r :: r in b.fallbacks ==> Draws(b, r.pool)
  {
  }

  lemma HostsFine(c: Context)
    requires forall d :: !Broken(c, d)
    ensures forall id :: id in c.facts.hosts ==> HostFine(c.policy, c.facts.hosts[id])
  {
    forall id | id in c.facts.hosts ensures HostFine(c.policy, c.facts.hosts[id]) {
      assert !Broken(c, Diagnostic(ResourceCapacityExceeded, Host(id)))
        && !Broken(c, Diagnostic(UnknownResourceState, Host(id)));
    }
  }

  lemma NothingReportedAbout(c: Context, u: Use)
    requires (forall d :: !Broken(c, d)) && Used(c.p, u)
    ensures UseSound(c, u)
  {
    hide UseSound, UseBroken;
    UseSoundIff(c, u);
    var b :| b in c.p.bindings && (u == PrimaryUse(b) || exists j: nat :: j < |b.fallbacks| && u == FallbackUse(b, j));
    var i :| 0 <= i < |c.p.bindings| && c.p.bindings[i] == b;
    forall x ensures !UseBroken(c, u, x) {
      if u == PrimaryUse(b) {
        assert !Broken(c, Diagnostic(x, PrimaryAt(i)));
      } else {
        var j: nat :| j < |b.fallbacks| && u == FallbackUse(b, j);
        assert !Broken(c, Diagnostic(x, FallbackAt(i, j)));
      }
    }
  }

  // ----- Stricter policies ------------------------------------------------------------------------------------

  /** A requirement that asks at least as much. A grade of unknown asks nothing; any other
      grade, the empty one included, asks for a known grade with evidence. */
  predicate AsksAtLeast(x: Requirement, y: Requirement) {
    && (y.toolUse ==> x.toolUse) && (y.structuredOutput ==> x.structuredOutput) && (y.acceleration ==> x.acceleration)
    && (y.minGrade != Routing.Unknown ==>
          x.minGrade != Routing.Unknown && x.dimension == y.dimension && x.minGrade.Rank() >= y.minGrade.Rank())
  }

  const NO_DEMAND := Requirement("", Routing.Unknown, false, false, false)

  /** What a policy asks of a role; of a role it does not list, nothing. */
  function Asked(requirements: map<string, Requirement>, role: string): Requirement {
    if role in requirements then requirements[role] else NO_DEMAND
  }

  /** `a` asks at least what `b` asks of every role. Entries that ask nothing need no cover. */
  predicate RequiresAtLeast(a: map<string, Requirement>, b: map<string, Requirement>) {
    forall role :: role in b ==> AsksAtLeast(Asked(a, role), b[role])
  }

  predicate AtLeastAsStrict(a: Policy, b: Policy) {
    StricterElsewhere(a, b) && RequiresAtLeast(a.requirements, b.requirements)
  }

  /** At least as strict in everything but the requirements of roles. */
  predicate StricterElsewhere(a: Policy, b: Policy) {
    && (b.maxExposure.Some? ==> a.maxExposure.Some? && a.maxExposure.value.Rank() <= b.maxExposure.value.Rank())
    && (b.maxCost.Some? ==> a.maxCost.Some? && a.maxCost.value.Rank() <= b.maxCost.value.Rank())
    && (b.regimes != {} ==> a.regimes != {} && a.regimes <= b.regimes)
    && (b.forbidMetered ==> a.forbidMetered) && (b.measuredProvenance ==> a.measuredProvenance)
    && (b.verifiedAcceleration ==> a.verifiedAcceleration) && (b.knownContextControl ==> a.knownContextControl)
    && (b.knownResources ==> a.knownResources) && (b.knownBudgets ==> a.knownBudgets)
    && (b.minContractLimit > 0 ==> a.minContractLimit >= b.minContractLimit)
  }

  lemma StricterUse(a: Policy, b: Policy, p: Portfolio, facts: Facts, u: Use, x: Code)
    requires AtLeastAsStrict(a, b)
    ensures UseBroken(ContextOf(b, p, facts), u, x) ==> UseBroken(ContextOf(a, p, facts), u, x)
  {
    hide IndexBy, RequiresAtLeast, AtLeastAsStrict, GradedOf, KnownOf;
    hide ReferenceBroken, CapabilityBroken, EconomicsBroken, ContextBroken, MachineBroken;
    var c, d := ContextOf(a, p, facts), ContextOf(b, p, facts);
    StricterReference(a, b, p, facts, u, x);
    StricterCapability(a, b, p, facts, u, x);
    StricterEconomics(a, b, p, facts, u, x);
    StricterContext(a, b, p, facts, u, x);
    StricterMachine(a, b, p, facts, u, x);
  }

  lemma StricterReference(a: Policy, b: Policy, p: Portfolio, facts: Facts, u: Use, x: Code)
    ensures ReferenceBroken(ContextOf(b, p, facts), u, x) == ReferenceBroken(ContextOf(a, p, facts), u, x)
    ensures KnownOf(ContextOf(b, p, facts), u.route.endpoint) == KnownOf(ContextOf(a, p, facts), u.route.endpoint)
  {
    hide IndexBy;
  }

  lemma StricterCapability(a: Policy, b: Policy, p: Portfolio, facts: Facts, u: Use, x: Code)
    requires AtLeastAsStrict(a, b)
    ensures CapabilityBroken(ContextOf(b, p, facts), u, x) ==> CapabilityBroken(ContextOf(a, p, facts), u, x)
  {
    hide IndexBy, GradedOf, KnownOf, ViabilityBroken, NeedBroken, AsksAtLeast;
    StricterReference(a, b, p, facts, u, x);
    if u.role in b.requirements {
      assert AsksAtLeast(Asked(a.requirements, u.role), b.requirements[u.role]);
      StricterNeed(a, b, p, facts, u, Asked(a.requirements, u.role), b.requirements[u.role], x);
      NoDemandIsMet(ContextOf(a, p, facts), u, x);
    }
  }

  lemma NoDemandIsMet(c: Context, u: Use, x: Code)
    ensures !NeedBroken(c, u, NO_DEMAND, x)
  {
  }

  lemma StricterNeed(a: Policy, b: Policy, p: Portfolio, facts: Facts, u: Use, r: Requirement, q: Requirement, x: Code)
    requires AsksAtLeast(r, q) && (b.measuredProvenance ==> a.measuredProvenance)
    ensures NeedBroken(ContextOf(b, p, facts), u, q, x) ==> NeedBroken(ContextOf(a, p, facts), u, r, x)
  {
    hide IndexBy, GradedOf, KnownOf;
    StricterReference(a, b, p, facts, u, x);
  }

  lemma StricterEconomics(a: Policy, b: Policy, p: Portfolio, facts: Facts, u: Use, x: Code)
    requires AtLeastAsStrict(a, b)
    ensures EconomicsBroken(ContextOf(b, p, facts), u, x) ==> EconomicsBroken(ContextOf(a, p, facts), u, x)
  {
    hide IndexBy, KnownOf, RequiresAtLeast;
    StricterReference(a, b, p, facts, u, x);
  }

  lemma StricterContext(a: Policy, b: Policy, p: Portfolio, facts: Facts, u: Use, x: Code)
    requires AtLeastAsStrict(a, b)
    ensures ContextBroken(ContextOf(b, p, facts), u, x) ==> ContextBroken(ContextOf(a, p, facts), u, x)
  {
    hide IndexBy, RequiresAtLeast, Disagree;
  }

  lemma StricterMachine(a: Policy, b: Policy, p: Portfolio, facts: Facts, u: Use, x: Code)
    requires AtLeastAsStrict(a, b)
    ensures MachineBroken(ContextOf(b, p, facts), u, x) ==> MachineBroken(ContextOf(a, p, facts), u, x)
  {
    hide IndexBy, KnownOf, RequiresAtLeast;
    StricterReference(a, b, p, facts, u, x);
  }

  /** A policy that is at least as strict reports at least the same diagnostics, target by target. */
  lemma StricterReportsMore(a: Policy, b: Policy, p: Portfolio, facts: Facts, d: Diagnostic)
    requires AtLeastAsStrict(a, b)
    ensures Broken(ContextOf(b, p, facts), d) ==> Broken(ContextOf(a, p, facts), d)
  {
    hide UseBroken, IndexBy, RequiresAtLeast, IsUsed, IsReview, Alike;
    match d.target
    case PrimaryAt(i) =>
      if i < |p.bindings| {
        StricterUse(a, b, p, facts, PrimaryUse(p.bindings[i]), d.code);
      }
    case FallbackAt(i, j) =>
      if i < |p.bindings| && j < |p.bindings[i].fallbacks| {
        StricterUse(a, b, p, facts, FallbackUse(p.bindings[i], j), d.code);
      }
    case DiversityRules =>
      if p.diversity.Some? {
        SameRivals(a, b, p, facts, p.diversity.value);
      }
    case _ =>
  }

  lemma SameRivals(a: Policy, b: Policy, p: Portfolio, facts: Facts, rules: Diversity)
    ensures forall i: nat, j: nat :: i < j < |p.bindings| ==>
      PairBroken(ContextOf(b, p, facts), rules, i, j) == PairBroken(ContextOf(a, p, facts), rules, i, j)
  {
    hide IndexBy, IsReview;
  }

  /** A portfolio valid under a policy is valid under every weaker one. */
  lemma WeakerPolicyAccepts(a: Policy, b: Policy, p: Portfolio, facts: Facts)
    requires AtLeastAsStrict(a, b) && Sound(ContextOf(a, p, facts))
    ensures Sound(ContextOf(b, p, facts))
  {
    hide Sound, Broken, AtLeastAsStrict;
    ValidIffSound(ContextOf(a, p, facts));
    forall d ensures !Broken(ContextOf(b, p, facts), d) {
      StricterReportsMore(a, b, p, facts, d);
    }
    ValidIffSound(ContextOf(b, p, facts));
  }

  // ----- What requirements of roles decide ------------------------------------------------------

  /** Every portfolio valid under `a` is valid under `b`, whatever the facts are. */
  ghost predicate Accepts(a: Policy, b: Policy) {
    forall p, facts :: Sound(ContextOf(a, p, facts)) ==> Sound(ContextOf(b, p, facts))
  }

  /** The policy allows no pool at all, so no portfolio with a binding is valid. */
  predicate NoRegime(policy: Policy) {
    policy.regimes != {} && policy.forbidMetered && policy.regimes <= {MeteredApi}
  }

  lemma SomeRegime(policy: Policy) returns (regime: Regime)
    ensures NoRegime(policy) || !RegimeBroken(policy, regime)
  {
    regime := LocalCompute;
    var allowed := if policy.forbidMetered then policy.regimes - {MeteredApi} else policy.regimes;
    if policy.regimes != {} && allowed != {} {
      regime := SomeMember(allowed);
    }
  }

  /** An endpoint that shows just what a requirement asks: on the machine, and with no grade,
      feature or verified backend beyond it. */
  function JustEnough(q: Requirement): Endpoint {
    Endpoint("e", true, Routing.NotApplicable, true, Routing.LocalOnly, Routing.LocalCompute,
             if q.acceleration then Some(Cpu) else None, q.acceleration, Shown(q.toolUse), Shown(q.structuredOutput),
             if q.minGrade == Routing.Unknown then [] else [Graded(q.dimension, q.minGrade, Measured)], "", "", None)
  }

  function Shown(asked: bool): Routing.Feature {
    if asked then Routing.ProbePassed else Routing.NotShown
  }

  const ONE_CHANNEL := Channel("c", "e", true, Some("k"), None)
  const ONE_PROFILE := ContextProfile("e", "c", Some("k"), None, 0)
  const ONE_ROUTE := Route("e", "c", "p", "b")

  /** One role, bound to one endpoint, paid from one pool. */
  function OneBinding(role: string, regime: Regime, exposure: Routing.Exposure): Portfolio {
    Portfolio([ONE_CHANNEL], [Binding(role, ONE_ROUTE, [])], [Pool("b", regime, false, false)], exposure, [], None,
              true)
  }

  function OneEndpoint(e: Endpoint): Facts {
    Facts([e], [], {}, map["p" := ONE_PROFILE], None, map[], false)
  }

  function OneContext(policy: Policy, role: string, regime: Regime, e: Endpoint): Context {
    ContextOf(policy, OneBinding(role, regime, e.exposure), OneEndpoint(e))
  }

  lemma OneOf<T>(x: T, key: T -> string)
    ensures IndexBy([x], key) == map[key(x) := x]
  {
    assert [x][..0] == [];
  }

  lemma OneLookups(policy: Policy, role: string, regime: Regime, e: Endpoint)
    requires e.id == "e"
    ensures
      var c := OneContext(policy, role, regime, e);
      c.channels == map["c" := ONE_CHANNEL] && c.pools == map["b" := Pool("b", regime, false, false)]
      && c.profile == map["e" := e]
  {
    OneOf(ONE_CHANNEL, (c: Channel) => c.id);
    OneOf(Pool("b", regime, false, false), (b: Pool) => b.id);
    OneOf(e, (e: Endpoint) => e.id);
  }

  /** Such a portfolio, within the limits of the policy, is valid exactly when the endpoint
      fills the role. */
  lemma OneIsSoundIff(policy: Policy, role: string, regime: Regime, e: Endpoint)
    requires e.id == "e" && e.ready && e.local && e.backend in {None, Some(Cpu)} && !RegimeBroken(policy, regime)
    requires !Exceeds(e.exposure, policy.maxExposure)
    requires policy.maxCost.Some? ==> e.cost.Rank() <= policy.maxCost.value.Rank()
    ensures
      var c, u := OneContext(policy, role, regime, e), Use(role, ONE_ROUTE, None);
      References(c, u) && (Sound(c) <==> Fills(c, u, Asked(policy.requirements, role)))
  {
    hide IndexBy, Fills;
    var c, u := OneContext(policy, role, regime, e), Use(role, ONE_ROUTE, None);
    OneLookups(policy, role, regime, e);
    NoDemandIsFilled(c, u);
    assert UseSound(c, u) <==> Fills(c, u, Asked(policy.requirements, role));
    UsesAreUsed(c.p, 0);
    forall x | Used(c.p, x) ensures x == u {
    }
  }

  lemma NoDemandIsFilled(c: Context, u: Use)
    requires References(c, u)
    ensures Fills(c, u, NO_DEMAND)
  {
  }

  /** What shows just enough for one requirement fills exactly the requirements that ask no more. */
  lemma JustEnoughFills(c: Context, u: Use, q: Requirement, r: Requirement)
    requires References(c, u) && c.channels[u.route.channel].tools
    requires u.route.endpoint in c.profile && c.profile[u.route.endpoint] == JustEnough(q)
    ensures Fills(c, u, r) <==> AsksAtLeast(q, r)
  {
    assert GradedOf(JustEnough(q).capabilities, r.dimension)
        == if q.minGrade != Routing.Unknown && q.dimension == r.dimension then Graded(q.dimension, q.minGrade, Measured)
           else Graded(r.dimension, Routing.Unknown, NoProvenance);
  }

  /** One binding of a role, and an endpoint that shows just what `q` asks: of the policies that
      allow the pool, exactly those accept it that ask no more of the role. */
  lemma OneDecides(policy: Policy, role: string, regime: Regime, q: Requirement)
    requires !RegimeBroken(policy, regime)
    ensures Sound(OneContext(policy, role, regime, JustEnough(q))) <==> AsksAtLeast(q, Asked(policy.requirements, role))
  {
    hide IndexBy, RegimeBroken, Fills, References, Sound;
    var c := OneContext(policy, role, regime, JustEnough(q));
    OneLookups(policy, role, regime, JustEnough(q));
    OneIsSoundIff(policy, role, regime, JustEnough(q));
    JustEnoughFills(c, Use(role, ONE_ROUTE, None), q, Asked(policy.requirements, role));
  }

  /** Where the rest of a policy is at least as strict, everything it accepts is accepted by
      the other one exactly when it asks at least as much of every role, or accepts no binding. */
  lemma RequirementsDecideIff(a: Policy, b: Policy)
    requires StricterElsewhere(a, b)
    ensures Accepts(a, b) <==> RequiresAtLeast(a.requirements, b.requirements) || NoRegime(a)
  {
    hide Sound, StricterElsewhere, NoRegime, RegimeBroken, AsksAtLeast;
    if RequiresAtLeast(a.requirements, b.requirements) {
      forall p, facts | Sound(ContextOf(a, p, facts)) ensures Sound(ContextOf(b, p, facts)) {
        WeakerPolicyAccepts(a, b, p, facts);
      }
    } else if NoRegime(a) {
      forall p, facts | Sound(ContextOf(a, p, facts)) ensures Sound(ContextOf(b, p, facts)) {
        NothingBound(a, b, p, facts);
      }
    } else {
      var role :| role in b.requirements && !AsksAtLeast(Asked(a.requirements, role), b.requirements[role]);
      var regime := SomeRegime(a);
      UncoveredRole(a, b, role, regime);
    }
  }

  /** A role of which the other policy asks more: one binding of that role is valid under the
      stricter policy and invalid under the other. */
  lemma UncoveredRole(a: Policy, b: Policy, role: string, regime: Regime)
    requires StricterElsewhere(a, b) && !RegimeBroken(a, regime)
    requires !AsksAtLeast(Asked(a.requirements, role), Asked(b.requirements, role))
    ensures
      var e := JustEnough(Asked(a.requirements, role));
      Sound(OneContext(a, role, regime, e)) && !Sound(OneContext(b, role, regime, e))
  {
    hide Sound, OneContext, Asked;
    var q := Asked(a.requirements, role);
    assert !RegimeBroken(b, regime);
    assert AsksAtLeast(q, q);
    OneDecides(a, role, regime, q);
    OneDecides(b, role, regime, q);
  }

  /** Without an allowed regime a valid portfolio has no pool and so no binding, and what is
      asked of roles makes no difference. */
  lemma NothingBound(a: Policy, b: Policy, p: Portfolio, facts: Facts)
    requires StricterElsewhere(a, b) && NoRegime(a) && Sound(ContextOf(a, p, facts))
    ensures Sound(ContextOf(b, p, facts))
  {
    hide UseSound, Used, StricterElsewhere;
    var c := b.(requirements := a.requirements);
    SameElsewhere(a, b);
    NoPoolAllowed(a, p.pools);
    forall u ensures !Used(p, u) {
      if Used(p, u) {
        assert UseSound(ContextOf(a, p, facts), u);
        NeedsAPool(ContextOf(a, p, facts), u);
      }
    }
    WeakerPolicyAccepts(a, c, p, facts);
    SameRivals(b, c, p, facts, if p.diversity.Some? then p.diversity.value else Diversity(false, false, false));
  }

  lemma NoPoolAllowed(policy: Policy, pools: seq<Pool>)
    requires NoRegime(policy) && forall b :: b in pools ==> !RegimeBroken(policy, b.regime)
    ensures pools == []
  {
    if pools != [] {
      FirstIsIn(pools);
    }
  }

  lemma FirstIsIn(pools: seq<Pool>)
    requires pools != []
    ensures pools[0] in pools
  {
  }

  lemma NeedsAPool(c: Context, u: Use)
    requires UseSound(c, u)
    ensures c.pools != map[]
  {
  }

  lemma SameElsewhere(a: Policy, b: Policy)
    requires StricterElsewhere(a, b)
    ensures AtLeastAsStrict(a, b.(requirements := a.requirements))
  {
  }

  /** Of two policies as written the weaker one may reject what the stricter one accepts: a
      policy that lists no requirements gets the defaults. It accepts everything the stricter one
      does exactly when it lists requirements, or the stricter one asks what the defaults ask. */
  lemma EffectiveStrictnessIff(a: Policy, b: Policy)
    requires AtLeastAsStrict(a, b)
    ensures Accepts(Effective(Some(a)), Effective(Some(b))) <==>
      || b.requirements != map[]
      || RequiresAtLeast(Effective(Some(a)).requirements, DefaultRequirements())
      || NoRegime(a)
  {
    hide DefaultRequirements, Accepts, RequiresAtLeast, StricterElsewhere, NoRegime;
    var x, y := Effective(Some(a)), Effective(Some(b));
    SameWithDefaults(a, b);
    RequirementsDecideIff(x, y);
    if b.requirements != map[] {
      CoversStill(a, b);
    }
  }

  lemma SameWithDefaults(a: Policy, b: Policy)
    requires AtLeastAsStrict(a, b)
    ensures StricterElsewhere(Effective(Some(a)), Effective(Some(b))) && NoRegime(Effective(Some(a))) == NoRegime(a)
  {
    hide DefaultRequirements, RequiresAtLeast, StricterElsewhere, NoRegime;
    var x, y := Effective(Some(a)), Effective(Some(b));
    assert x == a.(requirements := x.requirements) && y == b.(requirements := y.requirements);
    RequirementsAside(a, b, x.requirements, y.requirements);
  }

  lemma RequirementsAside(a: Policy, b: Policy, ra: map<string, Requirement>, rb: map<string, Requirement>)
    requires StricterElsewhere(a, b)
    ensures StricterElsewhere(a.(requirements := ra), b.(requirements := rb))
    ensures NoRegime(a.(requirements := ra)) == NoRegime(a)
  {
  }

  /** What an empty list of requirements covers, everything covers. */
  lemma CoversStill(a: Policy, b: Policy)
    requires RequiresAtLeast(a.requirements, b.requirements) && b.requirements != map[]
    ensures RequiresAtLeast(Effective(Some(a)).requirements, b.requirements)
  {
    hide DefaultRequirements, AsksAtLeast;
    var x := Effective(Some(a)).requirements;
    if a.requirements == map[] {
      forall role | role in b.requirements ensures AsksAtLeast(Asked(x, role), b.requirements[role]) {
        assert AsksAtLeast(Asked(a.requirements, role), b.requirements[role]);
        AskingNothing(Asked(x, role), b.requirements[role]);
      }
    }
  }

  lemma AskingNothing(x: Requirement, y: Requirement)
    requires AsksAtLeast(NO_DEMAND, y)
    ensures AsksAtLeast(x, y)
  {
  }

  /** Dropping every requirement from a policy that asks less of some role than the defaults do:
      one binding of that role is valid before and invalid afterwards. */
  lemma FewerRequirementsCanReject(a: Policy, role: string, regime: Regime)
    requires a.requirements != map[] && !RegimeBroken(a, regime)
    requires !AsksAtLeast(Asked(a.requirements, role), Asked(DefaultRequirements(), role))
    ensures
      var weaker := a.(requirements := map[]);
      var e := JustEnough(Asked(a.requirements, role));
      && AtLeastAsStrict(a, weaker)
      && Sound(OneContext(Effective(Some(a)), role, regime, e))
      && !Sound(OneContext(Effective(Some(weaker)), role, regime, e))
  {
    hide DefaultRequirements, Sound, OneContext, AsksAtLeast, RegimeBroken, Asked;
    UncoveredRole(a, Effective(Some(a.(requirements := map[]))), role, regime);
  }

  // ----- Validation and routing --------------------------------------------------------------------------------

  function RoutedCapabilities(cs: seq<Graded>): seq<(string, Routing.Grade)> {
    seq(|cs|, i requires 0 <= i < |cs| => (cs[i].dimension, cs[i].grade))
  }

  /** The endpoint as the router sees it: acceleration counts only off the CPU. */
  function Routed(e: Endpoint): Routing.Endpoint {
    Routing.Endpoint(e.id, e.ready, e.auth, e.exposure, e.cost, RoutedCapabilities(e.capabilities), e.structuredOutput,
                     e.toolUse,
                     e.backend.Some? && e.verified && e.backend.value != Cpu, e.contextTokens)
  }

  /** An empty minimum grade is one the router takes for no minimum. */
  function RoutedRequirement(role: string, req: Requirement, minContext: int): Routing.Requirement {
    var grade := if req.minGrade == Routing.OtherGrade("") then None else Some(req.minGrade);
    Routing.Requirement(role, req.dimension, grade, req.structuredOutput, req.toolUse, req.acceleration, minContext)
  }

  lemma {:induction false} SameGrade(cs: seq<Graded>, dimension: string)
    ensures Routing.GradeOf(RoutedCapabilities(cs), dimension) == GradedOf(cs, dimension).grade
  {
    if cs != [] {
      assert RoutedCapabilities(cs)[1..] == RoutedCapabilities(cs[1..]);
      SameGrade(cs[1..], dimension);
    }
  }

  /** A use that passed validation is one the router would accept, under the same limits and
      the same requirement, exactly when the endpoint also meets what only the router asks:
      a probed structured output, an accelerator that is not the CPU, the context size, no
      failed authentication even when it is local, and where the policy sets no limit the
      lowest exposure or cost: an unset limit binds nothing here and closes the router. */
  lemma ValidatedIsEligibleIff(c: Context, u: Use, e: Endpoint, preferred: seq<Routing.Preference>, minContext: int)
    requires UseSound(c, u) && u.route.endpoint in c.profile && c.profile[u.route.endpoint] == e
    requires u.role in c.policy.requirements
    ensures
      var req := c.policy.requirements[u.role];
      Routing.Eligible(RoutedRequirement(u.role, req, minContext),
                       Routing.Policy(c.policy.maxExposure, c.policy.maxCost, preferred), Routed(e))
      <==>
      && (req.structuredOutput ==> e.structuredOutput == Routing.ProbePassed)
      && (req.acceleration ==> e.backend != Some(Cpu))
      && (minContext > 0 ==> e.contextTokens.Some? && e.contextTokens.value >= minContext)
      && (e.local ==> e.auth !in {Routing.Unauthenticated, Routing.Expired, Routing.AuthError})
      && (c.policy.maxExposure.None? ==> e.exposure == Routing.LocalOnly)
      && (c.policy.maxCost.None? ==> e.cost == Routing.LocalCompute)
  {
    hide GradedOf, Routing.GradeOf, Described, Hosted;
    var req := c.policy.requirements[u.role];
    var q := RoutedRequirement(u.role, req, minContext);
    var p := Routing.Policy(c.policy.maxExposure, c.policy.maxCost, preferred);
    SameGrade(e.capabilities, req.dimension);
    Routing.EligibleMeetsAll(q, p, Routed(e));
    assert KnownOf(c, u.route.endpoint).exposure == e.exposure && KnownOf(c, u.route.endpoint).cost == e.cost;
    assert Routing.Meets(Routing.SourceExposure, q, p, Routed(e)) <==>
      (p.maxExposure.None? ==> e.exposure == Routing.LocalOnly);
    assert Routing.Meets(Routing.CostClass, q, p, Routed(e)) <==> (p.maxCost.None? ==> e.cost == Routing.LocalCompute);
    assert Routing.Meets(Routing.Health, q, p, Routed(e)) && Routing.Meets(Routing.Capability, q, p, Routed(e))
        && Routing.Meets(Routing.ToolUse, q, p, Routed(e));
  }

  const STRUCTURED := Requirement("", Routing.Unknown, true, false, false)
  const DECLARED := JustEnough(STRUCTURED).(structuredOutput := Routing.Declared)

  function Asking(role: string, req: Requirement, exposure: Option<Routing.Exposure>,
                  cost: Option<Routing.Cost>): Policy {
    Policy(exposure, cost, {}, false, false, false, false, false, false, 0, map[role := req])
  }

  /** A portfolio that is valid, with an endpoint the router refuses under the same limits:
      its structured output is declared and was never probed. */
  lemma ValidButNotEligible(role: string, preferred: seq<Routing.Preference>)
    ensures
      var policy := Asking(role, STRUCTURED, Some(Routing.LocalOnly), Some(Routing.LocalCompute));
      && Effective(Some(policy)) == policy && Sound(OneContext(policy, role, LocalCompute, DECLARED))
      && !Routing.Eligible(RoutedRequirement(role, STRUCTURED, 0),
                           Routing.Policy(policy.maxExposure, policy.maxCost, preferred), Routed(DECLARED))
  {
    hide IndexBy, Routing.Eligible, RoutedRequirement, Routed, Sound, References;
    var policy := Asking(role, STRUCTURED, Some(Routing.LocalOnly), Some(Routing.LocalCompute));
    assert role in policy.requirements;
    RefusedBy(policy, role, STRUCTURED, DECLARED, preferred);
  }

  /** So is one that needs to see selected files, under a policy that sets no limits. */
  lemma UnsetLimitsCloseTheRouter(role: string, preferred: seq<Routing.Preference>)
    ensures
      var policy, e := Asking(role, NO_DEMAND, None, None), JustEnough(NO_DEMAND).(exposure := Routing.SelectedFiles);
      && Effective(Some(policy)) == policy && Sound(OneContext(policy, role, LocalCompute, e))
      && !Routing.Eligible(RoutedRequirement(role, NO_DEMAND, 0), Routing.Policy(None, None, preferred), Routed(e))
  {
    hide IndexBy, Routing.Eligible, RoutedRequirement, Routed, Sound, References;
    var policy, e := Asking(role, NO_DEMAND, None, None), JustEnough(NO_DEMAND).(exposure := Routing.SelectedFiles);
    assert role in policy.requirements;
    RefusedBy(policy, role, NO_DEMAND, e, preferred);
  }

  /** A valid use of one endpoint that the router refuses for what only the router asks. */
  lemma RefusedBy(policy: Policy, role: string, req: Requirement, e: Endpoint, preferred: seq<Routing.Preference>)
    requires policy.requirements == map[role := req] && policy.regimes == {} && !policy.forbidMetered
    requires e.id == "e" && e.ready && e.local && e.backend == None && !Exceeds(e.exposure, policy.maxExposure)
    requires policy.maxCost.Some? ==> e.cost.Rank() <= policy.maxCost.value.Rank()
    requires !req.toolUse && !req.acceleration && req.minGrade == Routing.Unknown
    requires req.structuredOutput ==> e.structuredOutput == Routing.Declared
    requires req.structuredOutput || (policy.maxExposure.None? && e.exposure != Routing.LocalOnly)
    ensures Sound(OneContext(policy, role, LocalCompute, e))
    ensures !Routing.Eligible(RoutedRequirement(role, req, 0),
                              Routing.Policy(policy.maxExposure, policy.maxCost, preferred), Routed(e))
  {
    hide IndexBy, Routing.Eligible, RoutedRequirement, Routed, References;
    var c, u := OneContext(policy, role, LocalCompute, e), Use(role, ONE_ROUTE, None);
    OneLookups(policy, role, LocalCompute, e);
    OneIsSoundIff(policy, role, LocalCompute, e);
    assert role in policy.requirements && Asked(policy.requirements, role) == req;
    assert Sound(c);
    UsesAreUsed(c.p, 0);
    assert UseSound(c, u);
    ValidatedIsEligibleIff(c, u, e, preferred, 0);
  }
}

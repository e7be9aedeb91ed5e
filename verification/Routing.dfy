/** Capability routing: hard constraints first, then one explicit order. */
module Routing {
  import opened Text
  import opened Sorting

  // ----- Endpoints ------------------------------------------------------------------------

  datatype Exposure =
    | LocalOnly | SemanticEvidenceOnly | FocusedSnippets | SelectedFiles | ToolMediatedWorktree
    | UnrestrictedAuthorized | OtherExposure(name: string)
  {
    function Rank(): nat {
      match this
      case LocalOnly => 0
      case SemanticEvidenceOnly => 1
      case FocusedSnippets => 2
      case SelectedFiles => 3
      case ToolMediatedWorktree => 4
      case UnrestrictedAuthorized => 5
      case OtherExposure(_) => 6
    }
  }

  datatype Cost =
    | LocalCompute | SubscriptionIncluded | RemoteEconomy | RemoteStrong | FrontierExpensive | OtherCost(name: string)
  {
    function Rank(): nat {
      match this
      case LocalCompute => 0
      case SubscriptionIncluded => 1
      case RemoteEconomy => 2
      case RemoteStrong => 3
      case FrontierExpensive => 4
      case OtherCost(_) => 5
    }
  }

  datatype Grade = Strong | Medium | Low | Unsupported | Unknown | OtherGrade(name: string) {
    function Rank(): nat {
      match this
      case Strong => 4
      case Medium => 3
      case Low => 2
      case Unsupported => 1
      case _ => 0
    }
  }

  datatype Auth = Authenticated | NotApplicable | Unauthenticated | Expired | AuthError | UnknownAuth

  datatype Feature = ProbePassed | Declared | NotShown

  datatype Endpoint = Endpoint(
    id: string,
    ready: bool,
    auth: Auth,
    exposure: Exposure,
    cost: Cost,
    capabilities: seq<(string, Grade)>,
    structuredOutput: Feature,
    toolUse: Feature,
    accelerated: bool,
    contextTokens: Option<int>)

  /** The first capability entry of the dimension, or unknown. */
  function GradeOf(cs: seq<(string, Grade)>, dimension: string): Grade {
    if cs == [] then Unknown
    else if cs[0].0 == dimension then cs[0].1
    else GradeOf(cs[1..], dimension)
  }

  datatype Requirement = Requirement(
    role: string,
    dimension: string,
    minGrade: Option<Grade>,
    structuredOutput: bool,
    toolUse: bool,
    acceleration: bool,
    minContext: int)
  {
    /** An unset minimum makes no demand. */
    function Demand(): Grade {
      if minGrade.Some? then minGrade.value else Unknown
    }
  }

  datatype Preference = Preference(role: string, endpoints: seq<string>)

  datatype Policy = Policy(maxExposure: Option<Exposure>, maxCost: Option<Cost>, preferred: seq<Preference>) {
    /** An unset policy fails closed. */
    function ExposureLimit(): Exposure {
      if maxExposure.Some? then maxExposure.value else LocalOnly
    }

    function CostLimit(): Cost {
      if maxCost.Some? then maxCost.value else LocalCompute
    }
  }

  // ----- Hard constraints --------------------------------------------------------------------

  datatype Constraint = Health | Authentication | SourceExposure | CostClass | Capability
                      | StructuredOutput | ToolUse | Acceleration | Context

  predicate Meets(c: Constraint, q: Requirement, p: Policy, e: Endpoint) {
    match c
    case Health => e.ready
    case Authentication => e.auth !in {Unauthenticated, Expired, AuthError}
    case SourceExposure => e.exposure.Rank() <= p.ExposureLimit().Rank()
    case CostClass => e.cost.Rank() <= p.CostLimit().Rank()
    case Capability =>
      q.Demand() == Unknown
      || (GradeOf(e.capabilities, q.dimension) != Unknown
          && GradeOf(e.capabilities, q.dimension).Rank() >= q.Demand().Rank())
    case StructuredOutput => q.structuredOutput ==> e.structuredOutput == ProbePassed
    case ToolUse => q.toolUse ==> e.toolUse in {ProbePassed, Declared}
    case Acceleration => q.acceleration ==> e.accelerated
    case Context => q.minContext > 0 ==> e.contextTokens.Some? && e.contextTokens.value >= q.minContext
  }

  const ALL_CONSTRAINTS: seq<Constraint> :=
    [Health, Authentication, SourceExposure, CostClass, Capability, StructuredOutput, ToolUse, Acceleration, Context]

  /** Every constraint the endpoint fails, in the fixed order of evaluation. */
  function Blocking(q: Requirement, p: Policy, e: Endpoint): seq<Constraint> {
    Failing(ALL_CONSTRAINTS, q, p, e)
  }

  function Failing(cs: seq<Constraint>, q: Requirement, p: Policy, e: Endpoint): seq<Constraint> {
    if cs == [] then []
    else (if Meets(cs[0], q, p, e) then [] else [cs[0]]) + Failing(cs[1..], q, p, e)
  }

  predicate Eligible(q: Requirement, p: Policy, e: Endpoint) {
    forall c :: c in ALL_CONSTRAINTS ==> Meets(c, q, p, e)
  }

  lemma EligibleMeetsAll(q: Requirement, p: Policy, e: Endpoint)
    ensures Eligible(q, p, e) <==>
      && Meets(Health, q, p, e) && Meets(Authentication, q, p, e) && Meets(SourceExposure, q, p, e)
      && Meets(CostClass, q, p, e)
      && Meets(Capability, q, p, e) && Meets(StructuredOutput, q, p, e) && Meets(ToolUse, q, p, e)
      && Meets(Acceleration, q, p, e)
      && Meets(Context, q, p, e)
  {
    hide Meets;
    assert Health in ALL_CONSTRAINTS && Authentication in ALL_CONSTRAINTS && SourceExposure in ALL_CONSTRAINTS
      && CostClass in ALL_CONSTRAINTS
      && Capability in ALL_CONSTRAINTS && StructuredOutput in ALL_CONSTRAINTS && ToolUse in ALL_CONSTRAINTS
      && Acceleration in ALL_CONSTRAINTS
      && Context in ALL_CONSTRAINTS;
  }

  lemma {:induction false} FailingExactly(cs: seq<Constraint>, q: Requirement, p: Policy, e: Endpoint)
    ensures forall c :: c in Failing(cs, q, p, e) <==> c in cs && !Meets(c, q, p, e)
  {
    if cs != [] {
      FailingExactly(cs[1..], q, p, e);
      assert cs == [cs[0]] + cs[1..];
    }
  }

  // ----- Preference ----------------------------------------------------------------------------

  const UNRANKED := 0x10_0000

  function FirstIndex(ids: seq<string>, id: string): (r: Option<nat>)
    ensures r.Some? ==> r.value < |ids| && ids[r.value] == id
  {
    if ids == [] then None
    else
      match FirstIndex(ids[..|ids| - 1], id)
      case Some(k) => Some(k)
      case None => if ids[|ids| - 1] == id then Some(|ids| - 1) else None
  }

  /** The rank an operator gave an endpoint: the first list of the role that names it. */
  function PreferenceOf(preferred: seq<Preference>, role: string, id: string): Option<nat> {
    if preferred == [] then None
    else
      match PreferenceOf(preferred[..|preferred| - 1], role, id)
      case Some(k) => Some(k)
      case None =>
        var last := preferred[|preferred| - 1];
        if last.role == role then FirstIndex(last.endpoints, id) else None
  }

  function RankOf(preferred: seq<Preference>, role: string, id: string): nat {
    var k := PreferenceOf(preferred, role, id);
    if k.Some? then k.value else UNRANKED
  }

  function RankIn(index: map<string, nat>, id: string): nat {
    if id in index then index[id] else UNRANKED
  }

  /** preferenceIndex: the map the router looks ranks up in. */
  method PreferenceIndex(preferred: seq<Preference>, role: string) returns (index: map<string, nat>)
    ensures forall id :: RankIn(index, id) == RankOf(preferred, role, id)
  {
    index := map[];
    for b := 0 to |preferred|
      invariant forall id :: (if id in index then Some(index[id]) else None) == PreferenceOf(preferred[..b], role, id)
    {
      assert preferred[..b + 1][..b] == preferred[..b];
      if preferred[b].role == role {
        var ids := preferred[b].endpoints;
        ghost var before := index;
        for i := 0 to |ids|
          invariant forall id :: (if id in index then Some(index[id]) else None)
                                 == if id in before then Some(before[id]) else FirstIndex(ids[..i], id)
        {
          assert ids[..i + 1][..i] == ids[..i];
          if ids[i] !in index {
            index := index[ids[i] := i];
          }
        }
        assert ids[..|ids|] == ids;
      }
    }
    assert preferred[..|preferred|] == preferred;
  }

  // ----- The order ---------------------------------------------------------------------------------

  /** Preference, then cost, then exposure, then best grade, then id. */
  predicate Before(q: Requirement, p: Policy, a: Endpoint, b: Endpoint) {
    Ahead(q, RankOf(p.preferred, q.role, a.id), a, RankOf(p.preferred, q.role, b.id), b)
  }

  predicate Ahead(q: Requirement, ra: nat, a: Endpoint, rb: nat, b: Endpoint) {
    if ra != rb then ra < rb
    else if a.cost.Rank() != b.cost.Rank() then a.cost.Rank() < b.cost.Rank()
    else if a.exposure.Rank() != b.exposure.Rank() then a.exposure.Rank() < b.exposure.Rank()
    else
      var ga, gb := GradeOf(a.capabilities, q.dimension).Rank(), GradeOf(b.capabilities, q.dimension).Rank();
      if ga != gb then ga > gb else TextLess(a.id, b.id)
  }

  ghost predicate UniqueIds(s: set<Endpoint>) {
    forall a, b :: a in s && b in s && a.id == b.id ==> a == b
  }

  lemma BeforeOrders(q: Requirement, p: Policy, s: set<Endpoint>)
    requires UniqueIds(s)
    ensures Orders(ByRank(q, p), s)
  {
    forall a | a in s ensures !Before(q, p, a, a) {
      TextOrder(a.id, a.id);
    }
    forall a, b | a in s && b in s && a != b ensures Before(q, p, a, b) || Before(q, p, b, a) {
      TextOrder(a.id, b.id);
    }
    forall a, b, c | a in s && b in s && c in s && Before(q, p, a, b) && Before(q, p, b, c) ensures Before(q, p, a, c) {
      BeforeTransitive(q, p, a, b, c);
    }
  }

  lemma BeforeTransitive(q: Requirement, p: Policy, a: Endpoint, b: Endpoint, c: Endpoint)
    requires Before(q, p, a, b) && Before(q, p, b, c)
    ensures Before(q, p, a, c)
  {
    hide RankOf, GradeOf, TextLess;
    if TextLess(a.id, b.id) && TextLess(b.id, c.id) {
      TextTransitive(a.id, b.id, c.id);
    }
  }

  function ByRank(q: Requirement, p: Policy): (Endpoint, Endpoint) -> bool {
    (a: Endpoint, b: Endpoint) => Before(q, p, a, b)
  }

  /** The comparator as the router runs it, over the ranks it looked up. */
  function ByIndex(q: Requirement, index: map<string, nat>): (Endpoint, Endpoint) -> bool {
    (a: Endpoint, b: Endpoint) => Ahead(q, RankIn(index, a.id), a, RankIn(index, b.id), b)
  }

  function ById(): (Endpoint, Endpoint) -> bool {
    (a: Endpoint, b: Endpoint) => TextLess(a.id, b.id)
  }

  lemma ByIdOrders(s: set<Endpoint>)
    requires UniqueIds(s)
    ensures Orders(ById(), s)
  {
    forall a, b | a in s && b in s ensures !ById()(a, a) && (a != b ==> ById()(a, b) || ById()(b, a)) {
      TextOrder(a.id, b.id);
    }
    forall a, b, c | a in s && b in s && c in s && ById()(a, b) && ById()(b, c) ensures ById()(a, c) {
      TextTransitive(a.id, b.id, c.id);
    }
  }

  // ----- Decisions ------------------------------------------------------------------------------------

  datatype Loss = ByPreference | ByCost | ByExposure | ByGradeOrId

  datatype Rejection =
    | Blocked(id: string, reasons: seq<Constraint>)
    | Outranked(id: string, loss: Loss)

  datatype NoReason = NothingDiscovered | NothingReady | AllTooExposed | SomeTooExposed | AllTooCostly | TooWeak
                    | OtherReason

  datatype Decision =
    | Selected(id: string, rejected: seq<Rejection>)
    | NoEligible(reason: NoReason, rejected: seq<Rejection>)

  /** Why an eligible endpoint lost against the selected one. */
  function LossOf(q: Requirement, p: Policy, loser: Endpoint, winner: Endpoint): Loss {
    LossBy(RankOf(p.preferred, q.role, loser.id), loser, RankOf(p.preferred, q.role, winner.id), winner)
  }

  function LossBy(rl: nat, loser: Endpoint, rw: nat, winner: Endpoint): Loss {
    if rl > rw then ByPreference
    else if loser.cost.Rank() > winner.cost.Rank() then ByCost
    else if loser.exposure.Rank() > winner.exposure.Rank() then ByExposure
    else ByGradeOrId
  }

  ghost predicate Wins(q: Requirement, p: Policy, s: set<Endpoint>, w: Endpoint) {
    w in s && Eligible(q, p, w)
    && forall e :: e in s && Eligible(q, p, e) && e != w ==> Before(q, p, w, e)
  }

  /** The rejection an endpoint deserves, given the winner. */
  function RejectionOf(q: Requirement, p: Policy, e: Endpoint, winner: Option<Endpoint>): Rejection {
    if winner.Some? && Blocking(q, p, e) == [] then Outranked(e.id, LossOf(q, p, e, winner.value))
    else Blocked(e.id, Blocking(q, p, e))
  }

  function RejectionsById(): (Rejection, Rejection) -> bool {
    (a: Rejection, b: Rejection) => TextLess(a.id, b.id)
  }

  /** What a decision about a set of endpoints has to be: the winner is the least eligible
      one, everything else is rejected for its own reasons, in id order. */
  ghost predicate Decides(q: Requirement, p: Policy, s: set<Endpoint>, d: Decision) {
    match d
    case Selected(id, rejected) =>
      exists w :: Wins(q, p, s, w) && id == w.id
        && Ascending(rejected, RejectionsById())
        && Elements(rejected) == set e | e in s && e != w :: RejectionOf(q, p, e, Some(w))
    case NoEligible(reason, rejected) =>
      && (forall e :: e in s ==> !Eligible(q, p, e))
      && Ascending(rejected, RejectionsById())
      && Elements(rejected) == (set e | e in s :: RejectionOf(q, p, e, None))
      && reason == ReasonFor(q, p, s)
  }

  // ----- Why nothing was eligible -------------------------------------------------------------------------

  datatype Tally = Tally(healthy: nat, exposure: nat, cost: nat, weak: nat)

  /** Which counter an endpoint reaches: 0 not ready; 1 ready; 2, 3 and 4 are ready and
      first blocked by exposure, by cost, or by capability. */
  function BucketOf(q: Requirement, p: Policy, e: Endpoint): int {
    if !e.ready then 0
    else if e.exposure.Rank() > p.ExposureLimit().Rank() then 2
    else if e.cost.Rank() > p.CostLimit().Rank() then 3
    else if q.Demand() != Unknown && GradeOf(e.capabilities, q.dimension).Rank() < q.Demand().Rank() then 4
    else 1
  }

  ghost function InBucket(s: set<Endpoint>, q: Requirement, p: Policy, k: int): set<Endpoint> {
    set e | e in s && BucketOf(q, p, e) == k
  }

  /** The counters of noEligibleReason as cardinalities. */
  ghost function TallyOf(q: Requirement, p: Policy, s: set<Endpoint>): Tally {
    Tally(|set e | e in s && e.ready|, |InBucket(s, q, p, 2)|, |InBucket(s, q, p, 3)|, |InBucket(s, q, p, 4)|)
  }

  function ReasonOf(n: nat, t: Tally): NoReason {
    if n == 0 then NothingDiscovered
    else if t.healthy == 0 then NothingReady
    else if t.exposure > 0 && t.exposure == t.healthy then AllTooExposed
    else if t.exposure > 0 then SomeTooExposed
    else if t.cost > 0 && t.cost == t.healthy then AllTooCostly
    else if t.weak > 0 then TooWeak
    else OtherReason
  }

  ghost function ReasonFor(q: Requirement, p: Policy, s: set<Endpoint>): NoReason {
    ReasonOf(|s|, TallyOf(q, p, s))
  }

  lemma BlockedIff(q: Requirement, p: Policy, e: Endpoint)
    ensures Blocking(q, p, e) == [] <==> Eligible(q, p, e)
  {
    FailingExactly(ALL_CONSTRAINTS, q, p, e);
    if Blocking(q, p, e) != [] {
      assert Blocking(q, p, e)[0] in Blocking(q, p, e);
    }
  }

  /** noEligibleReason: the loop with its four counters. */
  method NoEligibleReason(endpoints: seq<Endpoint>, q: Requirement, p: Policy) returns (r: NoReason)
    requires Distinct(endpoints)
    ensures r == ReasonFor(q, p, Elements(endpoints))
  {
    hide TallyOf, InBucket, GradeOf;
    if |endpoints| == 0 {
      assert Elements(endpoints) == {};
      return NothingDiscovered;
    }
    var t := Tally(0, 0, 0, 0);
    ghost var seen: set<Endpoint> := {};
    NothingCounted(q, p);
    for i := 0 to |endpoints|
      invariant seen == Elements(endpoints[..i]) && |seen| == i
      invariant t == TallyOf(q, p, seen)
    {
      var e := endpoints[i];
      assert endpoints[..i + 1] == endpoints[..i] + [e];
      assert e !in seen && Elements(endpoints[..i + 1]) == seen + {e};
      OneMoreCounted(q, p, seen, e);
      seen := seen + {e};
      if !e.ready {
        continue;
      }
      t := t.(healthy := t.healthy + 1);
      if e.exposure.Rank() > p.ExposureLimit().Rank() {
        t := t.(exposure := t.exposure + 1);
        continue;
      }
      if e.cost.Rank() > p.CostLimit().Rank() {
        t := t.(cost := t.cost + 1);
        continue;
      }
      if q.Demand() != Unknown && GradeOf(e.capabilities, q.dimension).Rank() < q.Demand().Rank() {
        t := t.(weak := t.weak + 1);
      }
    }
    assert endpoints[..|endpoints|] == endpoints;
    if t.healthy == 0 {
      r := NothingReady;
    } else if t.exposure > 0 && t.exposure == t.healthy {
      r := AllTooExposed;
    } else if t.exposure > 0 {
      r := SomeTooExposed;
    } else if t.cost > 0 && t.cost == t.healthy {
      r := AllTooCostly;
    } else if t.weak > 0 {
      r := TooWeak;
    } else {
      r := OtherReason;
    }
  }

  lemma NothingCounted(q: Requirement, p: Policy)
    ensures TallyOf(q, p, {}) == Tally(0, 0, 0, 0)
  {
    hide BucketOf;
    assert (set e: Endpoint | e in {} && e.ready) == {};
    assert InBucket({}, q, p, 2) == InBucket({}, q, p, 3) == InBucket({}, q, p, 4) == {};
  }

  lemma OneMoreCounted(q: Requirement, p: Policy, s: set<Endpoint>, e: Endpoint)
    requires e !in s
    ensures
      var t, k := TallyOf(q, p, s), BucketOf(q, p, e);
      TallyOf(q, p, s + {e})
      == Tally(t.healthy + (if e.ready then 1 else 0), t.exposure + (if k == 2 then 1 else 0),
               t.cost + (if k == 3 then 1 else 0), t.weak + (if k == 4 then 1 else 0))
  {
    var ready := set x | x in s && x.ready;
    assert (set x | x in s + {e} && x.ready) == if e.ready then ready + {e} else ready;
    OneMoreInBucket(q, p, s, e, 2);
    OneMoreInBucket(q, p, s, e, 3);
    OneMoreInBucket(q, p, s, e, 4);
  }

  lemma OneMoreInBucket(q: Requirement, p: Policy, s: set<Endpoint>, e: Endpoint, k: int)
    requires e !in s
    ensures |InBucket(s + {e}, q, p, k)| == |InBucket(s, q, p, k)| + if BucketOf(q, p, e) == k then 1 else 0
  {
    hide BucketOf;
    var b := InBucket(s, q, p, k);
    assert InBucket(s + {e}, q, p, k) == if BucketOf(q, p, e) == k then b + {e} else b;
  }

  // ----- Route ------------------------------------------------------------------------------------------------

  lemma {:induction false} SortAgrees(s: seq<Endpoint>, f: (Endpoint, Endpoint) -> bool,
                                      g: (Endpoint, Endpoint) -> bool)
    requires forall a, b :: f(a, b) == g(a, b)
    ensures Sort(s, f) == Sort(s, g)
  {
    if s != [] {
      SortAgrees(s[1..], f, g);
      InsertAgrees(s[0], Sort(s[1..], f), f, g);
    }
  }

  lemma {:induction false} InsertAgrees(x: Endpoint, s: seq<Endpoint>, f: (Endpoint, Endpoint) -> bool,
                                        g: (Endpoint, Endpoint) -> bool)
    requires forall a, b :: f(a, b) == g(a, b)
    ensures Insert(x, s, f) == Insert(x, s, g)
  {
    if s != [] && f(s[0], x) {
      InsertAgrees(x, s[1..], f, g);
    }
  }

  /** The rejections of `es`, one each and in their order. */
  function Rejections(q: Requirement, p: Policy, es: seq<Endpoint>, winner: Option<Endpoint>): seq<Rejection> {
    seq(|es|, i requires 0 <= i < |es| => RejectionOf(q, p, es[i], winner))
  }

  /** Sorting the rejections by id makes them a function of the set of endpoints. */
  lemma RejectionsSort(q: Requirement, p: Policy, es: seq<Endpoint>, winner: Option<Endpoint>)
    requires Distinct(es) && UniqueIds(Elements(es))
    ensures
      var sorted := Sort(Rejections(q, p, es, winner), RejectionsById());
      Ascending(sorted, RejectionsById())
      && Elements(sorted) == set e | e in Elements(es) :: RejectionOf(q, p, e, winner)
  {
    hide Blocking, LossOf;
    var rs := Rejections(q, p, es, winner);
    forall i, j | 0 <= i < j < |rs| ensures rs[i] != rs[j] {
      assert es[i] in Elements(es) && es[j] in Elements(es) && es[i] != es[j];
      assert rs[i].id == es[i].id && rs[j].id == es[j].id;
    }
    RejectionElements(q, p, es, winner);
    RejectionsOrder(q, p, Elements(es), winner);
    SortSorts(rs, RejectionsById());
  }

  lemma RejectionElements(q: Requirement, p: Policy, es: seq<Endpoint>, winner: Option<Endpoint>)
    ensures Elements(Rejections(q, p, es, winner)) == set e | e in Elements(es) :: RejectionOf(q, p, e, winner)
  {
    hide RejectionOf;
    var rs := Rejections(q, p, es, winner);
    forall e | e in Elements(es) ensures RejectionOf(q, p, e, winner) in Elements(rs) {
      var i :| 0 <= i < |es| && es[i] == e;
      assert rs[i] == RejectionOf(q, p, e, winner);
    }
    forall r | r in Elements(rs) ensures exists e :: e in Elements(es) && RejectionOf(q, p, e, winner) == r {
      var i :| 0 <= i < |rs| && rs[i] == r;
      assert es[i] in Elements(es) && RejectionOf(q, p, es[i], winner) == r;
    }
  }

  lemma RejectionsOrder(q: Requirement, p: Policy, s: set<Endpoint>, winner: Option<Endpoint>)
    requires UniqueIds(s)
    ensures Orders(RejectionsById(), set e | e in s :: RejectionOf(q, p, e, winner))
  {
    hide Blocking, LossOf;
    var rs := set e | e in s :: RejectionOf(q, p, e, winner);
    forall a, b | a in rs && b in rs
      ensures !RejectionsById()(a, a) && (a != b ==> RejectionsById()(a, b) || RejectionsById()(b, a))
    {
      TextOrder(a.id, b.id);
    }
    forall a, b, c | a in rs && b in rs && c in rs && RejectionsById()(a, b) && RejectionsById()(b, c)
      ensures RejectionsById()(a, c)
    {
      TextTransitive(a.id, b.id, c.id);
    }
  }

  /** The endpoints that are eligible, or those that are not, in their order. */
  function Keep(q: Requirement, p: Policy, es: seq<Endpoint>, eligible: bool): (r: seq<Endpoint>)
    ensures Elements(r) == set e | e in Elements(es) && Eligible(q, p, e) == eligible
  {
    if es == [] then []
    else
      var front, last := es[..|es| - 1], es[|es| - 1];
      assert es == front + [last];
      assert Elements(es) == Elements(front) + {last};
      if Eligible(q, p, last) == eligible then Appended(Keep(q, p, front, eligible), last)
      else Keep(q, p, front, eligible)
  }

  function Appended(s: seq<Endpoint>, e: Endpoint): (r: seq<Endpoint>)
    ensures Elements(r) == Elements(s) + {e}
  {
    s + [e]
  }

  lemma {:induction false} KeepDistinct(q: Requirement, p: Policy, es: seq<Endpoint>, eligible: bool)
    requires Distinct(es)
    ensures Distinct(Keep(q, p, es, eligible))
  {
    hide Eligible;
    if es != [] {
      var front, last := es[..|es| - 1], es[|es| - 1];
      KeepDistinct(q, p, front, eligible);
      assert last !in Elements(front);
      assert last !in Keep(q, p, front, eligible) by {
        assert last !in Elements(Keep(q, p, front, eligible));
      }
    }
  }

  lemma KeepNothing(q: Requirement, p: Policy)
    ensures Keep(q, p, [], true) == [] && Keep(q, p, [], false) == []
  {
  }

  lemma KeepOneMore(q: Requirement, p: Policy, es: seq<Endpoint>, i: nat, b: bool)
    requires i < |es|
    ensures Keep(q, p, es[..i + 1], b) == Keep(q, p, es[..i], b) + if Eligible(q, p, es[i]) == b then [es[i]] else []
  {
    hide Eligible;
    assert es[..i + 1][..i] == es[..i];
  }

  lemma OneMoreRejected(q: Requirement, p: Policy, es: seq<Endpoint>, e: Endpoint, winner: Option<Endpoint>)
    ensures Rejections(q, p, es + [e], winner) == Rejections(q, p, es, winner) + [RejectionOf(q, p, e, winner)]
  {
    hide RejectionOf;
  }

  /** An endpoint that fails a constraint is rejected alike whoever wins. */
  lemma BlockedEitherWay(q: Requirement, p: Policy, es: seq<Endpoint>, w: Endpoint)
    requires forall e :: e in Elements(es) ==> !Eligible(q, p, e)
    ensures Rejections(q, p, es, None) == Rejections(q, p, es, Some(w))
  {
    forall i | 0 <= i < |es| ensures RejectionOf(q, p, es[i], None) == RejectionOf(q, p, es[i], Some(w)) {
      assert es[i] in Elements(es);
      BlockedIff(q, p, es[i]);
    }
  }

  lemma AscendingDistinct(es: seq<Endpoint>, less: (Endpoint, Endpoint) -> bool)
    requires Ascending(es, less) && Orders(less, Elements(es))
    ensures Distinct(es)
  {
    forall i, j | 0 <= i < j < |es| ensures es[i] != es[j] {
      assert es[i] in Elements(es) && less(es[i], es[j]);
    }
  }

  /** Looking ranks up in the map gives the order the policy states. */
  lemma SameOrder(q: Requirement, p: Policy, index: map<string, nat>, es: seq<Endpoint>)
    requires forall id :: RankIn(index, id) == RankOf(p.preferred, q.role, id)
    ensures Sort(es, ByIndex(q, index)) == Sort(es, ByRank(q, p))
  {
    SortAgrees(es, ByIndex(q, index), ByRank(q, p));
  }

  lemma NothingWins(q: Requirement, p: Policy, s: set<Endpoint>, sorted: seq<Endpoint>)
    requires Distinct(sorted) && Elements(sorted) == s && UniqueIds(s) && Keep(q, p, sorted, true) == []
    ensures
      var rejected := Sort(Rejections(q, p, Keep(q, p, sorted, false), None), RejectionsById());
      Decides(q, p, s, NoEligible(ReasonFor(q, p, s), rejected))
  {
    hide Eligible, ReasonFor, RejectionOf, Keep, Ascending;
    var blocked := Keep(q, p, sorted, false);
    KeepDistinct(q, p, sorted, false);
    forall e | e in s ensures !Eligible(q, p, e) {
      assert e !in Elements(Keep(q, p, sorted, true));
    }
    assert Elements(blocked) == s;
    RejectionsSort(q, p, blocked, None);
  }

  lemma LeastWins(q: Requirement, p: Policy, s: set<Endpoint>, sorted: seq<Endpoint>, order: seq<Endpoint>)
    requires Distinct(sorted) && Elements(sorted) == s && UniqueIds(s)
    requires order == Sort(Keep(q, p, sorted, true), ByRank(q, p)) && order != []
    ensures
      var rejected := Rejections(q, p, Keep(q, p, sorted, false) + order[1..], Some(order[0]));
      Decides(q, p, s, Selected(order[0].id, Sort(rejected, RejectionsById())))
  {
    hide Eligible, Before, RejectionOf, Keep;
    var eligible, blocked := Keep(q, p, sorted, true), Keep(q, p, sorted, false);
    KeepDistinct(q, p, sorted, true);
    KeepDistinct(q, p, sorted, false);
    BeforeOrders(q, p, Elements(eligible));
    SortSorts(eligible, ByRank(q, p));
    AscendingDistinct(order, ByRank(q, p));
    var w := order[0];
    assert w in Elements(order);
    forall e | e in s && Eligible(q, p, e) && e != w ensures Before(q, p, w, e) {
      assert e in Elements(order);
      FirstBelow(order, e, ByRank(q, p));
    }
    RestElements(order, ByRank(q, p));
    Losers(q, p, s, blocked, order[1..], w);
    RejectionsSort(q, p, blocked + order[1..], Some(w));
  }

  lemma Losers(q: Requirement, p: Policy, s: set<Endpoint>, blocked: seq<Endpoint>, rest: seq<Endpoint>, w: Endpoint)
    requires w in s && Eligible(q, p, w) && Distinct(blocked) && Distinct(rest)
    requires Elements(blocked) == set e | e in s && !Eligible(q, p, e)
    requires Elements(rest) == (set e | e in s && Eligible(q, p, e)) - {w}
    ensures Distinct(blocked + rest) && Elements(blocked + rest) == s - {w}
  {
    hide Eligible;
    var all := blocked + rest;
    assert Elements(all) == Elements(blocked) + Elements(rest);
    forall i, j | 0 <= i < j < |all| ensures all[i] != all[j] {
      if i < |blocked| <= j {
        assert all[i] in Elements(blocked) && all[j] in Elements(rest);
      }
    }
  }

  /** Sorting loses no candidate, and everything else failed a constraint. */
  lemma SortedCandidates(q: Requirement, p: Policy, sorted: seq<Endpoint>)
    requires Distinct(sorted) && UniqueIds(Elements(sorted))
    ensures
      var eligible, order := Keep(q, p, sorted, true), Sort(Keep(q, p, sorted, true), ByRank(q, p));
      Elements(order) == Elements(eligible) && |order| == |eligible|
    ensures forall e :: e in Elements(Keep(q, p, sorted, false)) ==> !Eligible(q, p, e)
  {
    hide Eligible, Before, Keep;
    KeepDistinct(q, p, sorted, true);
    BeforeOrders(q, p, Elements(Keep(q, p, sorted, true)));
    SortSorts(Keep(q, p, sorted, true), ByRank(q, p));
  }

  lemma KeptEligible(q: Requirement, p: Policy, sorted: seq<Endpoint>, order: seq<Endpoint>, i: nat)
    requires Elements(order) == Elements(Keep(q, p, sorted, true)) && i < |order|
    ensures Blocking(q, p, order[i]) == []
  {
    assert order[i] in Elements(order);
    BlockedIff(q, p, order[i]);
  }

  /** Route: hard constraints over the endpoints in id order, then the least eligible one. */
  method Route(q: Requirement, p: Policy, endpoints: seq<Endpoint>) returns (d: Decision)
    requires Distinct(endpoints) && UniqueIds(Elements(endpoints))
    ensures Decides(q, p, Elements(endpoints), d)
  {
    hide Eligible, Blocking, RankIn, RankOf, ReasonFor, Orders, Keep, Ascending, Elements, Decides, UniqueIds, Sort;
    hide LossBy, Distinct, Before;
    var index := PreferenceIndex(p.preferred, q.role);
    var sorted := Sort(endpoints, ById());
    ByIdOrders(Elements(endpoints));
    SortSorts(endpoints, ById());
    AscendingDistinct(sorted, ById());
    var eligible: seq<Endpoint> := [];
    var rejected: seq<Rejection> := [];
    ghost var blocked: seq<Endpoint> := [];
    KeepNothing(q, p);
    assert sorted[..0] == [];
    for i := 0 to |sorted|
      invariant eligible == Keep(q, p, sorted[..i], true) && blocked == Keep(q, p, sorted[..i], false)
      invariant rejected == Rejections(q, p, blocked, None)
    {
      KeepOneMore(q, p, sorted, i, true);
      KeepOneMore(q, p, sorted, i, false);
      BlockedIff(q, p, sorted[i]);
      var blocking := Blocking(q, p, sorted[i]);
      if |blocking| > 0 {
        OneMoreRejected(q, p, blocked, sorted[i], None);
        blocked := blocked + [sorted[i]];
        rejected := rejected + [Blocked(sorted[i].id, blocking)];
      } else {
        eligible := eligible + [sorted[i]];
      }
    }
    assert sorted[..|sorted|] == sorted;
    if |eligible| == 0 {
      var reason := NoEligibleReason(endpoints, q, p);
      NothingWins(q, p, Elements(endpoints), sorted);
      return NoEligible(reason, Sort(rejected, RejectionsById()));
    }
    var order := Sort(eligible, ByIndex(q, index));
    SameOrder(q, p, index, eligible);
    SortedCandidates(q, p, sorted);
    var selected := order[0];
    BlockedEitherWay(q, p, blocked, selected);
    for i := 1 to |order|
      invariant rejected == Rejections(q, p, blocked + order[1..i], Some(selected))
    {
      var loser := order[i];
      ghost var before := blocked + order[1..i];
      OneMoreRejected(q, p, before, loser, Some(selected));
      assert before + [loser] == blocked + order[1..i + 1];
      KeptEligible(q, p, sorted, order, i);
      rejected := rejected
        + [Outranked(loser.id, LossBy(RankIn(index, loser.id), loser, RankIn(index, selected.id), selected))];
    }
    assert order[1..|order|] == order[1..];
    d := Selected(selected.id, Sort(rejected, RejectionsById()));
    LeastWins(q, p, Elements(endpoints), sorted, order);
  }

  // ----- What is selected, said in the endpoint's own fields ------------------------------------------

  /** Strong above medium above low above unsupported above everything unknown. */
  ghost predicate Better(a: Grade, b: Grade) {
    match a
    case Strong => !b.Strong?
    case Medium => !b.Strong? && !b.Medium?
    case Low => b.Unsupported? || b.Unknown? || b.OtherGrade?
    case Unsupported => b.Unknown? || b.OtherGrade?
    case _ => false
  }

  /** Local compute below a subscription below economy below strong below frontier below the rest. */
  ghost predicate Cheaper(a: Cost, b: Cost) {
    match a
    case LocalCompute => !b.LocalCompute?
    case SubscriptionIncluded => !b.LocalCompute? && !b.SubscriptionIncluded?
    case RemoteEconomy => b.RemoteStrong? || b.FrontierExpensive? || b.OtherCost?
    case RemoteStrong => b.FrontierExpensive? || b.OtherCost?
    case FrontierExpensive => b.OtherCost?
    case OtherCost(_) => false
  }

  /** Nothing leaves the machine, then evidence, snippets, files, a worktree, everything. */
  ghost predicate MorePrivate(a: Exposure, b: Exposure) {
    match a
    case LocalOnly => !b.LocalOnly?
    case SemanticEvidenceOnly => !b.LocalOnly? && !b.SemanticEvidenceOnly?
    case FocusedSnippets =>
      b.SelectedFiles? || b.ToolMediatedWorktree? || b.UnrestrictedAuthorized? || b.OtherExposure?
    case SelectedFiles => b.ToolMediatedWorktree? || b.UnrestrictedAuthorized? || b.OtherExposure?
    case ToolMediatedWorktree => b.UnrestrictedAuthorized? || b.OtherExposure?
    case UnrestrictedAuthorized => b.OtherExposure?
    case OtherExposure(_) => false
  }

  lemma RanksSay(a: Grade, b: Grade, c: Cost, d: Cost, x: Exposure, y: Exposure)
    ensures Better(a, b) <==> a.Rank() > b.Rank()
    ensures Cheaper(c, d) <==> c.Rank() < d.Rank()
    ensures MorePrivate(x, y) <==> x.Rank() < y.Rank()
  {
  }

  /** What each constraint asks of an endpoint. An unset exposure limit allows nothing to leave
      the machine, and an unset cost limit nothing but local compute. */
  ghost predicate Satisfies(c: Constraint, q: Requirement, p: Policy, e: Endpoint) {
    match c
    case Health => e.ready
    case Authentication => e.auth.Authenticated? || e.auth.NotApplicable? || e.auth.UnknownAuth?
    case SourceExposure => !MorePrivate(if p.maxExposure.Some? then p.maxExposure.value else LocalOnly, e.exposure)
    case CostClass => !Cheaper(if p.maxCost.Some? then p.maxCost.value else LocalCompute, e.cost)
    case Capability =>
      q.minGrade.Some? && q.minGrade != Some(Unknown) ==>
        !GradeOf(e.capabilities, q.dimension).Unknown?
        && !Better(q.minGrade.value, GradeOf(e.capabilities, q.dimension))
    case StructuredOutput => q.structuredOutput ==> e.structuredOutput.ProbePassed?
    case ToolUse => q.toolUse ==> !e.toolUse.NotShown?
    case Acceleration => q.acceleration ==> e.accelerated
    case Context => q.minContext > 0 ==> e.contextTokens.Some? && e.contextTokens.value >= q.minContext
  }

  ghost predicate Qualifies(q: Requirement, p: Policy, e: Endpoint) {
    forall c: Constraint :: Satisfies(c, q, p, e)
  }

  lemma MeetsIff(c: Constraint, q: Requirement, p: Policy, e: Endpoint)
    ensures Meets(c, q, p, e) <==> Satisfies(c, q, p, e)
  {
    hide GradeOf, Better, Cheaper, MorePrivate;
    RanksSay(q.Demand(), GradeOf(e.capabilities, q.dimension), p.CostLimit(), e.cost, p.ExposureLimit(), e.exposure);
  }

  lemma EligibleIff(q: Requirement, p: Policy, e: Endpoint)
    ensures Eligible(q, p, e) <==> Qualifies(q, p, e)
  {
    hide Meets, Satisfies;
    forall c: Constraint ensures c in ALL_CONSTRAINTS && (Meets(c, q, p, e) <==> Satisfies(c, q, p, e)) {
      EveryConstraint(c);
      MeetsIff(c, q, p, e);
    }
  }

  lemma EveryConstraint(c: Constraint)
    ensures c in ALL_CONSTRAINTS
  {
    var cs := ALL_CONSTRAINTS;
    assert cs[0] == Health && cs[1] == Authentication && cs[2] == SourceExposure && cs[3] == CostClass
      && cs[4] == Capability && cs[5] == StructuredOutput && cs[6] == ToolUse && cs[7] == Acceleration
      && cs[8] == Context;
  }

  /** The reasons of a blocked endpoint are exactly the constraints it does not satisfy. */
  lemma BlockingIff(c: Constraint, q: Requirement, p: Policy, e: Endpoint)
    ensures c in Blocking(q, p, e) <==> !Satisfies(c, q, p, e)
  {
    hide Meets, Satisfies;
    FailingExactly(ALL_CONSTRAINTS, q, p, e);
    EveryConstraint(c);
    MeetsIff(c, q, p, e);
  }

  /** The list of the role that first names the endpoint names it first at position `k`. */
  ghost predicate NamedAt(preferred: seq<Preference>, role: string, id: string, k: nat) {
    exists b: nat :: FirstNamedIn(preferred, role, id, b)
      && k < |preferred[b].endpoints| && preferred[b].endpoints[k] == id
      && forall j :: 0 <= j < k ==> preferred[b].endpoints[j] != id
  }

  ghost predicate FirstNamedIn(preferred: seq<Preference>, role: string, id: string, b: nat) {
    && b < |preferred| && preferred[b].role == role && id in preferred[b].endpoints
    && forall j :: 0 <= j < b && preferred[j].role == role ==> id !in preferred[j].endpoints
  }

  lemma {:induction false} FirstIndexIs(ids: seq<string>, id: string)
    ensures match FirstIndex(ids, id)
            case Some(k) => k < |ids| && ids[k] == id && forall j :: 0 <= j < k ==> ids[j] != id
            case None => id !in ids
  {
    if ids != [] {
      FirstIndexIs(ids[..|ids| - 1], id);
      assert ids == ids[..|ids| - 1] + [ids[|ids| - 1]];
    }
  }

  lemma {:induction false} PreferenceIs(preferred: seq<Preference>, role: string, id: string)
    ensures match PreferenceOf(preferred, role, id)
            case Some(k) => NamedAt(preferred, role, id, k)
            case None => forall b :: 0 <= b < |preferred| && preferred[b].role == role ==> id !in preferred[b].endpoints
  {
    hide FirstIndex;
    if preferred != [] {
      var before, last := preferred[..|preferred| - 1], preferred[|preferred| - 1];
      PreferenceIs(before, role, id);
      FirstIndexIs(last.endpoints, id);
      if PreferenceOf(before, role, id).Some? {
        NamedStays(before, last, role, id, PreferenceOf(before, role, id).value);
        assert preferred == before + [last];
      } else if last.role == role && id in last.endpoints {
        assert FirstNamedIn(preferred, role, id, |preferred| - 1);
      }
    }
  }

  lemma NamedStays(before: seq<Preference>, last: Preference, role: string, id: string, k: nat)
    requires NamedAt(before, role, id, k)
    ensures NamedAt(before + [last], role, id, k)
  {
    var b: nat :| FirstNamedIn(before, role, id, b)
      && k < |before[b].endpoints| && before[b].endpoints[k] == id
      && forall j :: 0 <= j < k ==> before[b].endpoints[j] != id;
    assert (before + [last])[b] == before[b];
    assert FirstNamedIn(before + [last], role, id, b);
  }

  /** An endpoint the operator names ranks at its place in the list, every other one at 2^20. */
  lemma RankIs(preferred: seq<Preference>, role: string, id: string)
    ensures NamedAt(preferred, role, id, RankOf(preferred, role, id))
            || (RankOf(preferred, role, id) == 1048576
                && forall b :: 0 <= b < |preferred| && preferred[b].role == role ==> id !in preferred[b].endpoints)
  {
    PreferenceIs(preferred, role, id);
  }

  /** `w` is at least as good a choice as `e`: preference decides, then cost, then exposure,
      then the grade, then the id. */
  ghost predicate BetterChoice(q: Requirement, p: Policy, w: Endpoint, e: Endpoint) {
    var rw, re := RankOf(p.preferred, q.role, w.id), RankOf(p.preferred, q.role, e.id);
    var gw, ge := GradeOf(w.capabilities, q.dimension), GradeOf(e.capabilities, q.dimension);
    && rw <= re
    && (rw == re ==>
          && !Cheaper(e.cost, w.cost)
          && (!Cheaper(w.cost, e.cost) ==>
                && !MorePrivate(e.exposure, w.exposure)
                && (!MorePrivate(w.exposure, e.exposure) ==>
                      && !Better(ge, gw)
                      && (!Better(gw, ge) ==> TextLess(w.id, e.id)))))
  }

  /** The selected endpoint qualifies, and is the better choice against every other endpoint that
      does; nothing is selected exactly when none qualifies. */
  lemma SelectedIsBest(q: Requirement, p: Policy, s: set<Endpoint>, d: Decision)
    requires Decides(q, p, s, d)
    ensures match d
            case Selected(id, _) =>
              exists w :: w in s && w.id == id && Qualifies(q, p, w)
                && forall e :: e in s && e != w && Qualifies(q, p, e) ==> BetterChoice(q, p, w, e)
            case NoEligible(_, _) => forall e :: e in s ==> !Qualifies(q, p, e)
  {
    hide Eligible, Qualifies, Before, BetterChoice, RejectionOf, Ascending, ReasonFor;
    forall e | e in s ensures Eligible(q, p, e) <==> Qualifies(q, p, e) {
      EligibleIff(q, p, e);
    }
    if d.Selected? {
      var w :| Wins(q, p, s, w) && d.id == w.id;
      forall e | e in s && e != w && Qualifies(q, p, e) ensures BetterChoice(q, p, w, e) {
        BeforeIsBetter(q, p, w, e);
      }
    }
  }

  lemma BeforeIsBetter(q: Requirement, p: Policy, w: Endpoint, e: Endpoint)
    ensures Before(q, p, w, e) <==> BetterChoice(q, p, w, e)
  {
    hide GradeOf, RankOf, TextLess, Better, Cheaper, MorePrivate;
    var gw, ge := GradeOf(w.capabilities, q.dimension), GradeOf(e.capabilities, q.dimension);
    RanksSay(gw, ge, w.cost, e.cost, w.exposure, e.exposure);
    RanksSay(ge, gw, e.cost, w.cost, e.exposure, w.exposure);
  }

  // ----- What every decision has ----------------------------------------------------------------------------

  lemma BeforeAsymmetric(q: Requirement, p: Policy, a: Endpoint, b: Endpoint)
    ensures !(Before(q, p, a, b) && Before(q, p, b, a))
  {
    TextOrder(a.id, b.id);
  }

  lemma OneWinner(q: Requirement, p: Policy, s: set<Endpoint>, v: Endpoint, w: Endpoint)
    requires UniqueIds(s) && Wins(q, p, s, v) && Wins(q, p, s, w)
    ensures v == w
  {
    hide Before, Eligible;
    BeforeAsymmetric(q, p, v, w);
  }

  /** A decision is determined by the set of endpoints alone. */
  lemma DecisionIsUnique(q: Requirement, p: Policy, s: set<Endpoint>, c: Decision, d: Decision)
    requires UniqueIds(s) && Decides(q, p, s, c) && Decides(q, p, s, d)
    ensures c == d
  {
    hide Before, Eligible, RejectionOf, ReasonFor, Ascending, Orders;
    if c.Selected? && d.Selected? {
      var v :| Wins(q, p, s, v) && c.id == v.id && Ascending(c.rejected, RejectionsById())
        && Elements(c.rejected) == set e | e in s && e != v :: RejectionOf(q, p, e, Some(v));
      var w :| Wins(q, p, s, w) && d.id == w.id && Ascending(d.rejected, RejectionsById())
        && Elements(d.rejected) == set e | e in s && e != w :: RejectionOf(q, p, e, Some(w));
      OneWinner(q, p, s, v, w);
      SameRejections(q, p, s - {w}, Some(w), c.rejected, d.rejected);
    } else if c.NoEligible? && d.NoEligible? {
      SameRejections(q, p, s, None, c.rejected, d.rejected);
    }
  }

  lemma SameRejections(q: Requirement, p: Policy, s: set<Endpoint>, winner: Option<Endpoint>, a: seq<Rejection>,
                       b: seq<Rejection>)
    requires UniqueIds(s) && Ascending(a, RejectionsById()) && Ascending(b, RejectionsById())
    requires Elements(a) == Elements(b) == set e | e in s :: RejectionOf(q, p, e, winner)
    ensures a == b
  {
    RejectionsOrder(q, p, s, winner);
    AscendingUnique(a, b, RejectionsById());
  }

  /** Whatever order the same endpoints are listed in, routing decides the same. */
  lemma RouteIsOrderFree(q: Requirement, p: Policy, a: seq<Endpoint>, b: seq<Endpoint>, c: Decision, d: Decision)
    requires multiset(a) == multiset(b) && UniqueIds(Elements(a))
    requires Decides(q, p, Elements(a), c) && Decides(q, p, Elements(b), d)
    ensures c == d
  {
    hide Decides, UniqueIds;
    assert Elements(a) == Elements(b) by {
      assert forall e :: e in Elements(a) <==> e in multiset(a);
      assert forall e :: e in Elements(b) <==> e in multiset(b);
    }
    DecisionIsUnique(q, p, Elements(a), c, d);
  }

  /** The selected endpoint and the rejected ones are the input, each once. */
  lemma SelectedAndRejectedPartition(q: Requirement, p: Policy, s: set<Endpoint>, d: Decision)
    requires UniqueIds(s) && Decides(q, p, s, d)
    ensures forall i, j :: 0 <= i < j < |d.rejected| ==> d.rejected[i].id != d.rejected[j].id
    ensures (set e | e in s :: e.id) == (set r | r in d.rejected :: r.id) + if d.Selected? then {d.id} else {}
    ensures d.Selected? ==> forall r :: r in d.rejected ==> r.id != d.id
    ensures d.NoEligible? <==> forall e :: e in s ==> !Eligible(q, p, e)
  {
    hide Before, Eligible, Blocking, LossOf, ReasonFor, Orders;
    forall i, j | 0 <= i < j < |d.rejected| ensures d.rejected[i].id != d.rejected[j].id {
      assert RejectionsById()(d.rejected[i], d.rejected[j]);
      TextOrder(d.rejected[i].id, d.rejected[j].id);
    }
    if d.Selected? {
      var w :| Wins(q, p, s, w) && d.id == w.id && Ascending(d.rejected, RejectionsById())
        && Elements(d.rejected) == set e | e in s && e != w :: RejectionOf(q, p, e, Some(w));
      RejectedIds(q, p, s - {w}, Some(w), d.rejected);
      assert s == (s - {w}) + {w};
    } else {
      RejectedIds(q, p, s, None, d.rejected);
    }
  }

  lemma RejectedIds(q: Requirement, p: Policy, s: set<Endpoint>, winner: Option<Endpoint>, rejected: seq<Rejection>)
    requires Elements(rejected) == set e | e in s :: RejectionOf(q, p, e, winner)
    ensures (set r | r in rejected :: r.id) == set e | e in s :: e.id
  {
    hide Blocking, LossOf;
    forall e | e in s ensures e.id in set r | r in rejected :: r.id {
      assert RejectionOf(q, p, e, winner) in Elements(rejected);
    }
    forall r | r in rejected ensures r.id in set e | e in s :: e.id {
      assert r in Elements(rejected);
    }
  }

  /** Taking away an endpoint that was not selected changes neither the winner nor what is
      said about the others. */
  lemma LosersDoNotMatter(q: Requirement, p: Policy, s: set<Endpoint>, x: Endpoint, c: Decision, d: Decision)
    requires UniqueIds(s) && x in s && Decides(q, p, s, c) && c.Selected? && c.id != x.id && Decides(q, p, s - {x}, d)
    ensures d.Selected? && d.id == c.id
    ensures Elements(d.rejected) == set r | r in Elements(c.rejected) && r.id != x.id
  {
    hide Before, Eligible, Blocking, LossOf, ReasonFor, Orders, Ascending;
    var w :| Wins(q, p, s, w) && c.id == w.id && Ascending(c.rejected, RejectionsById())
      && Elements(c.rejected) == set e | e in s && e != w :: RejectionOf(q, p, e, Some(w));
    assert Wins(q, p, s - {x}, w);
    var v :| Wins(q, p, s - {x}, v) && d.id == v.id && Ascending(d.rejected, RejectionsById())
      && Elements(d.rejected) == set e | e in s - {x} && e != v :: RejectionOf(q, p, e, Some(v));
    OneWinner(q, p, s - {x}, v, w);
    Without(q, p, s - {w}, x, Some(w));
    assert (set e | e in s && e != w :: RejectionOf(q, p, e, Some(w))) == set e | e in s - {w} ::
      RejectionOf(q, p, e, Some(w));
    assert (set e | e in s - {x} && e != w :: RejectionOf(q, p, e, Some(w)))
        == set e | e in s - {w} - {x} :: RejectionOf(q, p, e, Some(w));
  }

  lemma Without(q: Requirement, p: Policy, s: set<Endpoint>, x: Endpoint, winner: Option<Endpoint>)
    requires UniqueIds(s) && x in s
    ensures (set e | e in s - {x} :: RejectionOf(q, p, e, winner))
         == set r | r in (set e | e in s :: RejectionOf(q, p, e, winner)) && r.id != x.id
  {
    hide Blocking, LossOf;
  }

  /** The reason given to a loser is the first criterion on which it differs from the winner. */
  lemma LossIsDecisive(q: Requirement, p: Policy, w: Endpoint, e: Endpoint)
    requires Before(q, p, w, e)
    ensures
      var pref := RankOf(p.preferred, q.role, w.id) == RankOf(p.preferred, q.role, e.id);
      var cost := w.cost.Rank() == e.cost.Rank();
      var exposure := w.exposure.Rank() == e.exposure.Rank();
      match LossOf(q, p, e, w)
      case ByPreference => !pref
      case ByCost => pref && !cost
      case ByExposure => pref && cost && !exposure
      case ByGradeOrId => pref && cost && exposure
  {
    hide RankOf, GradeOf, TextLess;
    assert RankOf(p.preferred, q.role, w.id) <= RankOf(p.preferred, q.role, e.id);
  }
}

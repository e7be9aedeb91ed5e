/** Endpoint resolution under an execution policy: the first granted candidate, in endpoint
    and then grant order, that is independent of the actors a review must exclude. */
module Resolver {
  import opened Text
  import Routing

  // ----- Actors --------------------------------------------------------------------------

  datatype ActorBasis = ActorBasis(
    endpoint: string, model: string, revision: string, provider: string, family: string, account: string)

  datatype BasisKind = EndpointModel | ModelFamilyAccount | OtherBasis(name: string)

  /** The fields an actor id is taken over; none if one of them is blank. */
  function Selected(kind: BasisKind, b: ActorBasis): Option<seq<string>> {
    match kind
    case EndpointModel =>
      if Blank(b.endpoint) || Blank(b.model) || Blank(b.revision) then None else Some([b.endpoint, b.model, b.revision])
    case ModelFamilyAccount =>
      if Blank(b.provider) || Blank(b.family) || Blank(b.account) then None else Some([b.account, b.family, b.provider])
    case OtherBasis(_) => None
  }

  /** The digest of canonical JSON, as an arbitrary function of the selected fields. */
  type Hash = seq<string> -> string

  function DeriveActorID(hash: Hash, kind: BasisKind, b: ActorBasis): Option<string> {
    match Selected(kind, b)
    case None => None
    case Some(fields) => Some("actor:" + hash(fields))
  }

  // ----- Requests, policies, portfolios ----------------------------------------------------

  datatype Request = Request(
    project: string, task: string, role: string, need: Routing.Exposure, portfolioDigest: string,
    basis: BasisKind, excluded: seq<ActorBasis>)
  {
    predicate Valid() {
      && !Blank(project) && !Blank(task) && !Blank(role)
      && (excluded != [] ==> !basis.OtherBasis? && forall b :: b in excluded ==> Selected(basis, b).Some?)
    }
  }

  datatype Grant = Grant(
    endpoint: string, model: string, roles: seq<string>, locality: string, exposure: Routing.Exposure, limits: string)

  /** `schemaOk` stands for the checks on the policy's other fields and on each single grant. */
  datatype Policy = Policy(grants: seq<Grant>, schemaOk: bool)

  datatype Endpoint = Endpoint(
    id: string, model: string, version: string, provider: string, family: string, account: string, kind: string)

  datatype Channel = Channel(id: string, endpoint: string, kind: string)

  datatype Binding = Binding(role: string, endpoint: string, channel: string, fallbacks: seq<(string, string)>)

  datatype Portfolio = Portfolio(id: string, channels: seq<Channel>, bindings: seq<Binding>, excluded: seq<string>)

  // ----- Grants ------------------------------------------------------------------------------

  /** By endpoint id, then by model id. */
  predicate GrantLess(a: Grant, b: Grant) {
    TextLess(a.endpoint, b.endpoint) || (a.endpoint == b.endpoint && TextLess(a.model, b.model))
  }

  /** The check the policy makes: no neighbour repeats or precedes the one before it. */
  predicate NeighboursOrdered(gs: seq<Grant>) {
    forall i :: 0 < i < |gs| ==>
      var p, g := gs[i - 1], gs[i];
      !(p.endpoint == g.endpoint && p.model == g.model)
      && !(TextLess(g.endpoint, p.endpoint) || (g.endpoint == p.endpoint && TextLess(g.model, p.model)))
  }

  lemma GrantLessTransitive(a: Grant, b: Grant, c: Grant)
    requires GrantLess(a, b) && GrantLess(b, c)
    ensures GrantLess(a, c)
  {
    hide TextLess;
    if TextLess(a.endpoint, b.endpoint) && TextLess(b.endpoint, c.endpoint) {
      TextTransitive(a.endpoint, b.endpoint, c.endpoint);
    }
    if TextLess(a.model, b.model) && TextLess(b.model, c.model) {
      TextTransitive(a.model, b.model, c.model);
    }
  }

  lemma NotBeforeIsAfter(p: Grant, g: Grant)
    ensures GrantLess(p, g) <==>
      !(p.endpoint == g.endpoint && p.model == g.model)
      && !(TextLess(g.endpoint, p.endpoint) || (g.endpoint == p.endpoint && TextLess(g.model, p.model)))
  {
    hide TextLess;
    TextOrder(p.endpoint, g.endpoint);
    TextOrder(p.model, g.model);
  }

  /** Comparing neighbours is comparing everything: the grants are strictly sorted as a whole,
      so no pair of an endpoint and a model is granted twice. */
  lemma {:induction false} NeighboursDecide(gs: seq<Grant>)
    ensures NeighboursOrdered(gs) <==> forall i, j :: 0 <= i < j < |gs| ==> GrantLess(gs[i], gs[j])
    ensures NeighboursOrdered(gs) ==>
      forall i, j :: 0 <= i < j < |gs| ==> !(gs[i].endpoint == gs[j].endpoint && gs[i].model == gs[j].model)
  {
    hide GrantLess, TextLess;
    forall i | 0 < i < |gs|
      ensures GrantLess(gs[i - 1], gs[i]) <==>
        !(gs[i - 1].endpoint == gs[i].endpoint && gs[i - 1].model == gs[i].model)
        && !(TextLess(gs[i].endpoint, gs[i - 1].endpoint)
          || (gs[i].endpoint == gs[i - 1].endpoint && TextLess(gs[i].model, gs[i - 1].model)))
    {
      NotBeforeIsAfter(gs[i - 1], gs[i]);
    }
    if NeighboursOrdered(gs) {
      forall i, j | 0 <= i < j < |gs| ensures GrantLess(gs[i], gs[j]) {
        Climb(gs, i, j);
      }
      forall i, j | 0 <= i < j < |gs| ensures !(gs[i].endpoint == gs[j].endpoint && gs[i].model == gs[j].model) {
        NotBeforeIsAfter(gs[i], gs[j]);
      }
    }
  }

  lemma {:induction false} Climb(gs: seq<Grant>, i: nat, j: nat)
    requires i < j < |gs| && forall k :: 0 < k < |gs| ==> GrantLess(gs[k - 1], gs[k])
    ensures GrantLess(gs[i], gs[j])
    decreases j
  {
    if i < j - 1 {
      Climb(gs, i, j - 1);
      GrantLessTransitive(gs[i], gs[j - 1], gs[j]);
    }
  }

  // ----- Channels ------------------------------------------------------------------------------

  function ChannelNamed(channels: seq<Channel>, id: string): Option<Channel> {
    if channels == [] then None
    else if channels[|channels| - 1].id == id then Some(channels[|channels| - 1])
    else ChannelNamed(channels[..|channels| - 1], id)
  }

  function FirstChannelOf(channels: seq<Channel>, endpoint: string): Option<Channel> {
    if channels == [] then None
    else if channels[0].endpoint == endpoint then Some(channels[0])
    else FirstChannelOf(channels[1..], endpoint)
  }

  /** The channel the last primary binding of the role and endpoint names. */
  function PrimaryChannel(bs: seq<Binding>, role: string, endpoint: string): Option<string> {
    if bs == [] then None
    else
      var last := bs[|bs| - 1];
      if last.role == role && last.endpoint == endpoint then Some(last.channel)
      else PrimaryChannel(bs[..|bs| - 1], role, endpoint)
  }

  function FirstFallback(fs: seq<(string, string)>, endpoint: string): Option<string> {
    if fs == [] then None
    else
      match FirstFallback(fs[..|fs| - 1], endpoint)
      case Some(c) => Some(c)
      case None => if fs[|fs| - 1].0 == endpoint then Some(fs[|fs| - 1].1) else None
  }

  /** The channel the first fallback of the role to the endpoint names. */
  function FallbackChannel(bs: seq<Binding>, role: string, endpoint: string): Option<string> {
    if bs == [] then None
    else
      match FallbackChannel(bs[..|bs| - 1], role, endpoint)
      case Some(c) => Some(c)
      case None =>
        var last := bs[|bs| - 1];
        if last.role == role then FirstFallback(last.fallbacks, endpoint) else None
  }

  /** A primary binding outranks every fallback. */
  function BoundChannel(bs: seq<Binding>, role: string, endpoint: string): Option<string> {
    var p := PrimaryChannel(bs, role, endpoint);
    if p.Some? then p else FallbackChannel(bs, role, endpoint)
  }

  /** The channel an endpoint is reached through: the bound one if it exists, else the first
      channel of the endpoint. A channel without an id is none. */
  function ChannelFor(p: Portfolio, role: string, endpoint: string): Option<Channel> {
    var bound := BoundChannel(p.bindings, role, endpoint);
    var named := if bound.Some? then ChannelNamed(p.channels, bound.value) else None;
    var c := if named.Some? && named.value.id != "" then named else FirstChannelOf(p.channels, endpoint);
    if c.Some? && c.value.id != "" then c else None
  }

  method IndexBindings(bs: seq<Binding>, role: string) returns (index: map<string, string>)
    ensures forall e :: (if e in index then Some(index[e]) else None) == BoundChannel(bs, role, e)
  {
    index := map[];
    for b := 0 to |bs|
      invariant forall e :: (if e in index then Some(index[e]) else None) == BoundChannel(bs[..b], role, e)
    {
      assert bs[..b + 1][..b] == bs[..b];
      if bs[b].role == role {
        index := index[bs[b].endpoint := bs[b].channel];
        ghost var before := index;
        var fs := bs[b].fallbacks;
        for f := 0 to |fs|
          invariant forall e :: (if e in index then Some(index[e]) else None)
                                == if e in before then Some(before[e]) else FirstFallback(fs[..f], e)
        {
          assert fs[..f + 1][..f] == fs[..f];
          if fs[f].0 !in index {
            index := index[fs[f].0 := fs[f].1];
          }
        }
        assert fs[..|fs|] == fs;
      }
    }
    assert bs[..|bs|] == bs;
  }

  // ----- Candidates --------------------------------------------------------------------------------

  datatype Candidate = Candidate(basis: ActorBasis, kind: string, locality: string, channel: Channel, limits: string)

  function KindOf(channelKind: string): string {
    if channelKind == "cli_subprocess" then "authenticated_cli"
    else if channelKind == "direct_http_api" || channelKind == "remote_agent_proxy" then "remote_api"
    else "local_runtime"
  }

  /** Where candidates come from: the known endpoints in order, or the grants themselves when
      no endpoint is known. */
  function Sources(endpoints: seq<Endpoint>): seq<Option<Endpoint>> {
    if endpoints == [] then [None] else seq(|endpoints|, i requires 0 <= i < |endpoints| => Some(endpoints[i]))
  }

  function EndpointId(source: Option<Endpoint>, g: Grant): string {
    if source.Some? then source.value.id else g.endpoint
  }

  /** The grant is about this endpoint, for the role and with enough exposure, and the endpoint
      is reachable and not excluded by the portfolio. */
  predicate Fits(req: Request, p: Portfolio, source: Option<Endpoint>, g: Grant) {
    && EndpointId(source, g) !in p.excluded
    && (source.Some? ==> g.endpoint == source.value.id && (source.value.model == "" || g.model == source.value.model))
    && req.role in g.roles
    && g.exposure.Rank() >= req.need.Rank()
    && ChannelFor(p, req.role, EndpointId(source, g)).Some?
  }

  function CandidateOf(req: Request, p: Portfolio, source: Option<Endpoint>, g: Grant): Candidate
    requires Fits(req, p, source, g)
  {
    var channel := ChannelFor(p, req.role, EndpointId(source, g)).value;
    match source
    case Some(e) =>
      Candidate(ActorBasis(e.id, g.model, e.version, e.provider, e.family, e.account),
                if e.kind == "" then KindOf(channel.kind) else e.kind, g.locality, channel, g.limits)
    case None =>
      Candidate(ActorBasis(g.endpoint, g.model, "", "", "", ""), KindOf(channel.kind), g.locality, channel, g.limits)
  }

  // ----- Independence -------------------------------------------------------------------------------

  /** What the exclusion loop concludes about a candidate. */
  ghost predicate Passes(hash: Hash, req: Request, b: ActorBasis) {
    && (req.excluded != [] && req.basis == ModelFamilyAccount ==> DeriveActorID(hash, req.basis, b).Some?)
    && forall x :: x in req.excluded ==>
         && !(DeriveActorID(hash, req.basis, b).Some?
           && DeriveActorID(hash, req.basis, b) == DeriveActorID(hash, req.basis, x))
         && !(req.basis == EndpointModel && b.endpoint == x.endpoint && b.model == x.model)
  }

  /** Independence as the basis means it: another endpoint or model, or an account that is
      known and another. */
  ghost predicate Independent(req: Request, b: ActorBasis) {
    req.excluded != [] ==>
      match req.basis
      case EndpointModel => forall x :: x in req.excluded ==> b.endpoint != x.endpoint || b.model != x.model
      case ModelFamilyAccount =>
        && !Blank(b.provider) && !Blank(b.family) && !Blank(b.account)
        && forall x :: x in req.excluded ==> b.provider != x.provider || b.family != x.family || b.account != x.account
      case OtherBasis(_) => true
  }

  /** Whatever the digest does, what passes is independent. */
  lemma PassingIsIndependent(hash: Hash, req: Request, b: ActorBasis)
    requires req.Valid() && Passes(hash, req, b)
    ensures Independent(req, b)
  {
    hide Blank;
    if req.basis == ModelFamilyAccount && req.excluded != [] {
      forall x | x in req.excluded ensures b.provider != x.provider || b.family != x.family || b.account != x.account {
        assert DeriveActorID(hash, req.basis, b) != DeriveActorID(hash, req.basis, x);
      }
    }
  }

  ghost predicate Injective(hash: Hash) {
    forall a, b :: hash(a) == hash(b) ==> a == b
  }

  /** With a digest that never collides, nothing independent is turned away either. */
  lemma PassesIffIndependent(hash: Hash, req: Request, b: ActorBasis)
    requires req.Valid() && Injective(hash)
    ensures Passes(hash, req, b) <==> Independent(req, b)
  {
    hide Blank;
    if Passes(hash, req, b) {
      PassingIsIndependent(hash, req, b);
    }
    if Independent(req, b) && req.excluded != [] {
      forall x | x in req.excluded && DeriveActorID(hash, req.basis, b).Some?
        ensures DeriveActorID(hash, req.basis, b) != DeriveActorID(hash, req.basis, x)
      {
        SameIdSameFields(hash, req.basis, b, x);
      }
    }
  }

  lemma SameIdSameFields(hash: Hash, kind: BasisKind, a: ActorBasis, b: ActorBasis)
    requires Injective(hash) && DeriveActorID(hash, kind, a).Some?
    ensures DeriveActorID(hash, kind, a) == DeriveActorID(hash, kind, b) ==> Selected(kind, a) == Selected(kind, b)
  {
    hide Selected;
    if DeriveActorID(hash, kind, a) == DeriveActorID(hash, kind, b) {
      var x, y := hash(Selected(kind, a).value), hash(Selected(kind, b).value);
      assert x == ("actor:" + x)[6..] && y == ("actor:" + y)[6..];
    }
  }

  // ----- Resolve ----------------------------------------------------------------------------------------

  datatype Resolved = Resolved(
    basis: ActorBasis, kind: string, locality: string, channel: Channel, limits: string, policyDigest: string,
    portfolioDigest: string)

  datatype Failure = InvalidArgument | ModelUnavailable

  datatype Result = Found(endpoint: Resolved) | Failed(why: Failure)

  ghost predicate Accepts(hash: Hash, req: Request, p: Portfolio, source: Option<Endpoint>, g: Grant) {
    Fits(req, p, source, g) && Passes(hash, req, CandidateOf(req, p, source, g).basis)
  }

  /** (i, j) comes before (k, l) in endpoint-then-grant order. */
  predicate Earlier(i: int, j: int, k: int, l: int) {
    i < k || (i == k && j < l)
  }

  /** A candidate as it is returned: unbound, so without a model revision. */
  function Unbound(req: Request, p: Portfolio, policyDigest: string, c: Candidate): Resolved {
    Resolved(c.basis.(revision := ""), c.kind, c.locality, c.channel, c.limits, policyDigest,
             if req.portfolioDigest == "" then p.id else req.portfolioDigest)
  }

  /** The answer to a well-formed request: the first acceptable pair, or none. */
  ghost predicate Answers(hash: Hash, req: Request, gs: seq<Grant>, p: Portfolio, sources: seq<Option<Endpoint>>,
                          policyDigest: string, r: Result) {
    match r
    case Found(e) =>
      exists i, j :: 0 <= i < |sources| && 0 <= j < |gs| && Accepts(hash, req, p, sources[i], gs[j])
        && e == Unbound(req, p, policyDigest, CandidateOf(req, p, sources[i], gs[j]))
        && forall k, l :: 0 <= k < |sources| && 0 <= l < |gs| && Earlier(k, l, i, j) ==>
          !Accepts(hash, req, p, sources[k], gs[l])
    case Failed(why) =>
      why == ModelUnavailable
      && forall k, l :: 0 <= k < |sources| && 0 <= l < |gs| ==> !Accepts(hash, req, p, sources[k], gs[l])
  }

  /** `places` are the pairs that fit among the first `n` in order: all grants of the sources
      before `k`, and the first `l` grants of source `k`. */
  ghost predicate Fitting(req: Request, gs: seq<Grant>, p: Portfolio, sources: seq<Option<Endpoint>>, k: nat, l: nat,
                          places: seq<(nat, nat)>) {
    && (forall n :: 0 <= n < |places| ==>
          places[n].0 < |sources| && places[n].1 < |gs| && Earlier(places[n].0, places[n].1, k, l)
          && Fits(req, p, sources[places[n].0], gs[places[n].1]))
    && (forall m, n :: 0 <= m < n < |places| ==> Earlier(places[m].0, places[m].1, places[n].0, places[n].1))
    && (forall i: nat, j: nat ::
      i < |sources| && j < |gs| && Earlier(i, j, k, l) && Fits(req, p, sources[i], gs[j]) ==> (i, j) in places)
  }

  ghost predicate IsCandidate(req: Request, gs: seq<Grant>, p: Portfolio, sources: seq<Option<Endpoint>>,
                              c: Candidate) {
    exists s, g :: s in sources && g in gs && Fits(req, p, s, g) && c == CandidateOf(req, p, s, g)
  }

  lemma CandidatesAreTheFitting(req: Request, gs: seq<Grant>, p: Portfolio, sources: seq<Option<Endpoint>>,
                                candidates: seq<Candidate>,
                                places: seq<(nat, nat)>)
    requires Fitting(req, gs, p, sources, |sources|, 0, places) && |places| == |candidates|
    requires forall n ::
      0 <= n < |places| ==> candidates[n] == CandidateOf(req, p, sources[places[n].0], gs[places[n].1])
    ensures forall c :: c in candidates <==> IsCandidate(req, gs, p, sources, c)
  {
    hide Fits, CandidateOf;
    forall c | c in candidates ensures IsCandidate(req, gs, p, sources, c) {
      var n :| 0 <= n < |candidates| && candidates[n] == c;
      var s, g := sources[places[n].0], gs[places[n].1];
      assert s in sources && g in gs && Fits(req, p, s, g) && c == CandidateOf(req, p, s, g);
    }
    forall s, g | s in sources && g in gs && Fits(req, p, s, g) ensures CandidateOf(req, p, s, g) in candidates {
      var i: nat :| i < |sources| && sources[i] == s;
      var j: nat :| j < |gs| && gs[j] == g;
      assert (i, j) in places;
      var n :| 0 <= n < |places| && places[n] == (i, j);
      assert candidates[n] == CandidateOf(req, p, s, g);
    }
  }

  /** One grant of one source, checked in the order of the source program. */
  method Offer(req: Request, p: Portfolio, index: map<string, string>, named: map<string, Channel>,
               source: Option<Endpoint>, g: Grant)
    returns (c: Option<Candidate>)
    requires forall e :: (if e in index then Some(index[e]) else None) == BoundChannel(p.bindings, req.role, e)
    requires forall id :: (if id in named then Some(named[id]) else None) == ChannelNamed(p.channels, id)
    ensures c.Some? <==> Fits(req, p, source, g)
    ensures c.Some? ==> c.value == CandidateOf(req, p, source, g)
  {
    hide BoundChannel, ChannelNamed, FirstChannelOf;
    var id := EndpointId(source, g);
    if id in p.excluded {
      return None;
    }
    if source.Some? {
      if g.endpoint != id {
        return None;
      }
      if source.value.model != "" && g.model != source.value.model {
        return None;
      }
    }
    if req.role !in g.roles {
      return None;
    }
    if g.exposure.Rank() < req.need.Rank() {
      return None;
    }
    var channel := FindChannel(p, req.role, index, named, id);
    if channel.None? {
      return None;
    }
    c := Some(CandidateOf(req, p, source, g));
  }

  method FindChannel(p: Portfolio, role: string, index: map<string, string>, named: map<string, Channel>,
                     endpoint: string)
    returns (c: Option<Channel>)
    requires forall e :: (if e in index then Some(index[e]) else None) == BoundChannel(p.bindings, role, e)
    requires forall id :: (if id in named then Some(named[id]) else None) == ChannelNamed(p.channels, id)
    ensures c == ChannelFor(p, role, endpoint)
  {
    hide BoundChannel, ChannelNamed;
    var found: Option<Channel> := None;
    assert (if endpoint in index then Some(index[endpoint]) else None) == BoundChannel(p.bindings, role, endpoint);
    if endpoint in index {
      assert (if index[endpoint] in named then Some(named[index[endpoint]]) else None)
          == ChannelNamed(p.channels, index[endpoint]);
      if index[endpoint] in named {
        found := Some(named[index[endpoint]]);
      }
    }
    if found.None? || found.value.id == "" {
      found := ScanChannels(p.channels, endpoint);
    }
    if found.Some? && found.value.id == "" {
      return None;
    }
    return found;
  }

  method ScanChannels(channels: seq<Channel>, endpoint: string) returns (c: Option<Channel>)
    ensures c == FirstChannelOf(channels, endpoint)
  {
    for k := 0 to |channels|
      invariant FirstChannelOf(channels, endpoint) == FirstChannelOf(channels[k..], endpoint)
    {
      if channels[k].endpoint == endpoint {
        return Some(channels[k]);
      }
      assert channels[k..][1..] == channels[k + 1..];
    }
    return None;
  }

  method IndexChannels(channels: seq<Channel>) returns (named: map<string, Channel>)
    ensures forall id :: (if id in named then Some(named[id]) else None) == ChannelNamed(channels, id)
  {
    named := map[];
    for k := 0 to |channels|
      invariant forall id :: (if id in named then Some(named[id]) else None) == ChannelNamed(channels[..k], id)
    {
      assert channels[..k + 1][..k] == channels[..k];
      named := named[channels[k].id := channels[k]];
    }
    assert channels[..|channels|] == channels;
  }

  /** The candidates, and the pairs they come from, in order. */
  method Candidates(req: Request, gs: seq<Grant>, p: Portfolio, sources: seq<Option<Endpoint>>)
    returns (candidates: seq<Candidate>, ghost places: seq<(nat, nat)>)
    ensures Fitting(req, gs, p, sources, |sources|, 0, places) && |places| == |candidates|
    ensures forall n ::
      0 <= n < |places| ==> candidates[n] == CandidateOf(req, p, sources[places[n].0], gs[places[n].1])
    ensures forall c :: c in candidates <==> IsCandidate(req, gs, p, sources, c)
  {
    hide Fits, CandidateOf, BoundChannel, ChannelNamed;
    var index := IndexBindings(p.bindings, req.role);
    var named := IndexChannels(p.channels);
    candidates, places := [], [];
    for k := 0 to |sources|
      invariant Fitting(req, gs, p, sources, k, 0, places) && |places| == |candidates|
      invariant forall n ::
        0 <= n < |places| ==> candidates[n] == CandidateOf(req, p, sources[places[n].0], gs[places[n].1])
    {
      for l := 0 to |gs|
        invariant Fitting(req, gs, p, sources, k, l, places) && |places| == |candidates|
        invariant forall n ::
          0 <= n < |places| ==> candidates[n] == CandidateOf(req, p, sources[places[n].0], gs[places[n].1])
      {
        var c := Offer(req, p, index, named, sources[k], gs[l]);
        if c.Some? {
          candidates := candidates + [c.value];
          places := places + [(k, l)];
        }
      }
    }
    CandidatesAreTheFitting(req, gs, p, sources, candidates, places);
  }

  /** If the candidates before `n` were turned away, so is every pair before the pair of `n`. */
  lemma NoEarlierAccepted(hash: Hash, req: Request, gs: seq<Grant>, p: Portfolio, sources: seq<Option<Endpoint>>,
                          places: seq<(nat, nat)>,
                          candidates: seq<Candidate>, n: nat)
    requires Fitting(req, gs, p, sources, |sources|, 0, places) && |places| == |candidates| && n < |candidates|
    requires forall m ::
      0 <= m < |places| ==> candidates[m] == CandidateOf(req, p, sources[places[m].0], gs[places[m].1])
    requires forall m :: 0 <= m < n ==> !Passes(hash, req, candidates[m].basis)
    ensures forall k, l :: 0 <= k < |sources| && 0 <= l < |gs| && Earlier(k, l, places[n].0, places[n].1) ==>
      !Accepts(hash, req, p, sources[k], gs[l])
  {
    hide Fits, CandidateOf, Passes;
    forall k: nat, l: nat | k < |sources| && l < |gs| && Earlier(k, l, places[n].0, places[n].1)
        && Fits(req, p, sources[k], gs[l])
      ensures !Passes(hash, req, CandidateOf(req, p, sources[k], gs[l]).basis)
    {
      assert (k, l) in places;
      var m :| 0 <= m < |places| && places[m] == (k, l);
      assert m < n;
    }
  }

  lemma NoneAccepted(hash: Hash, req: Request, gs: seq<Grant>, p: Portfolio, sources: seq<Option<Endpoint>>,
                     places: seq<(nat, nat)>,
                     candidates: seq<Candidate>)
    requires Fitting(req, gs, p, sources, |sources|, 0, places) && |places| == |candidates|
    requires forall m ::
      0 <= m < |places| ==> candidates[m] == CandidateOf(req, p, sources[places[m].0], gs[places[m].1])
    requires forall m :: 0 <= m < |candidates| ==> !Passes(hash, req, candidates[m].basis)
    ensures forall k, l :: 0 <= k < |sources| && 0 <= l < |gs| ==> !Accepts(hash, req, p, sources[k], gs[l])
  {
    hide Fits, CandidateOf, Passes;
    forall k: nat, l: nat | k < |sources| && l < |gs| && Fits(req, p, sources[k], gs[l])
      ensures !Passes(hash, req, CandidateOf(req, p, sources[k], gs[l]).basis)
    {
      assert (k, l) in places;
      var m :| 0 <= m < |places| && places[m] == (k, l);
    }
  }

  /** The exclusion loop over one candidate. */
  method Excluded(hash: Hash, req: Request, b: ActorBasis) returns (excluded: bool)
    requires req.Valid()
    ensures excluded <==> !Passes(hash, req, b)
  {
    if |req.excluded| == 0 {
      return false;
    }
    var id: Option<string> := None;
    match req.basis {
      case EndpointModel =>
        if b.revision != "" {
          id := DeriveActorID(hash, req.basis, b);
        }
      case ModelFamilyAccount =>
        id := DeriveActorID(hash, req.basis, b);
        if id.None? {
          return true;
        }
      case OtherBasis(_) =>
    }
    assert id == DeriveActorID(hash, req.basis, b);
    for n := 0 to |req.excluded|
      invariant forall m :: 0 <= m < n ==>
        !(id.Some? && id == DeriveActorID(hash, req.basis, req.excluded[m]))
        && !(req.basis == EndpointModel && b.endpoint == req.excluded[m].endpoint && b.model == req.excluded[m].model)
    {
      var x := req.excluded[n];
      if id.Some? && id == DeriveActorID(hash, req.basis, x) {
        return true;
      }
      if req.basis == EndpointModel {
        if b.endpoint == x.endpoint && b.model == x.model {
          return true;
        }
      }
    }
    return false;
  }

  /** A request names project, task and role, and every actor it excludes is described as far as
      the basis needs it. */
  ghost predicate Proper(req: Request) {
    && !Blank(req.project) && !Blank(req.task) && !Blank(req.role)
    && forall b :: b in req.excluded ==>
         match req.basis
         case EndpointModel => !Blank(b.endpoint) && !Blank(b.model) && !Blank(b.revision)
         case ModelFamilyAccount => !Blank(b.provider) && !Blank(b.family) && !Blank(b.account)
         case OtherBasis(_) => false
  }

  lemma ValidIff(req: Request)
    ensures req.Valid() <==> Proper(req)
  {
    hide Blank;
    if req.excluded != [] {
      assert req.excluded[0] in req.excluded;
    }
  }

  method Resolve(hash: Hash, req: Request, policy: Policy, policyDigest: string, portfolio: Option<Portfolio>,
                 endpoints: seq<Endpoint>)
    returns (r: Result)
    ensures !(req.Valid() && policy.schemaOk && NeighboursOrdered(policy.grants) && !Blank(policyDigest)) ==>
      r == Failed(InvalidArgument)
    ensures !Proper(req) ==> r == Failed(InvalidArgument)
    ensures req.Valid() && policy.schemaOk && NeighboursOrdered(policy.grants) && !Blank(policyDigest) ==>
      if portfolio.None? then r == Failed(ModelUnavailable)
      else Answers(hash, req, policy.grants, portfolio.value, Sources(endpoints), policyDigest, r)
  {
    ValidIff(req);
    if !req.Valid() {
      return Failed(InvalidArgument);
    }
    if !policy.schemaOk || !NeighboursOrdered(policy.grants) {
      return Failed(InvalidArgument);
    }
    if Blank(policyDigest) {
      return Failed(InvalidArgument);
    }
    if portfolio.None? {
      return Failed(ModelUnavailable);
    }
    r := FirstAccepted(hash, req, policy.grants, portfolio.value, Sources(endpoints), policyDigest);
  }

  method FirstAccepted(hash: Hash, req: Request, gs: seq<Grant>, p: Portfolio, sources: seq<Option<Endpoint>>,
                       policyDigest: string)
    returns (r: Result)
    requires req.Valid()
    ensures Answers(hash, req, gs, p, sources, policyDigest, r)
  {
    hide Fits, CandidateOf, Passes;
    ghost var places: seq<(nat, nat)>;
    var candidates;
    candidates, places := Candidates(req, gs, p, sources);
    for n := 0 to |candidates|
      invariant forall m :: 0 <= m < n ==> !Passes(hash, req, candidates[m].basis)
    {
      var out := Excluded(hash, req, candidates[n].basis);
      if !out {
        r := Found(Unbound(req, p, policyDigest, candidates[n]));
        NoEarlierAccepted(hash, req, gs, p, sources, places, candidates, n);
        assert Accepts(hash, req, p, sources[places[n].0], gs[places[n].1]);
        return;
      }
    }
    r := Failed(ModelUnavailable);
    NoneAccepted(hash, req, gs, p, sources, places, candidates);
  }

  // ----- What an answer guarantees ----------------------------------------------------------------------

  predicate Grants(g: Grant, req: Request, e: Resolved) {
    && g.endpoint == e.basis.endpoint && g.model == e.basis.model && g.limits == e.limits && g.locality == e.locality
    && req.role in g.roles && g.exposure.Rank() >= req.need.Rank()
  }

  /** A found endpoint is granted the role and the exposure, is reachable, is not excluded, and
      is independent of every actor the request excludes; this needs nothing of the digest. */
  lemma FoundIsGrantedAndIndependent(hash: Hash, req: Request, gs: seq<Grant>, p: Portfolio, endpoints: seq<Endpoint>,
                                     policyDigest: string, e: Resolved)
    requires req.Valid() && Answers(hash, req, gs, p, Sources(endpoints), policyDigest, Found(e))
    ensures exists g :: g in gs && Grants(g, req, e)
    ensures e.basis.endpoint !in p.excluded
    ensures ChannelFor(p, req.role, e.basis.endpoint) == Some(e.channel)
    ensures endpoints != [] ==>
      exists x :: x in endpoints && x.id == e.basis.endpoint && (x.model == "" || x.model == e.basis.model)
    ensures Independent(req, e.basis)
  {
    hide ChannelFor, Passes;
    var sources := Sources(endpoints);
    var i, j :| 0 <= i < |sources| && 0 <= j < |gs| && Accepts(hash, req, p, sources[i], gs[j])
      && e == Unbound(req, p, policyDigest, CandidateOf(req, p, sources[i], gs[j]));
    PassingIsIndependent(hash, req, CandidateOf(req, p, sources[i], gs[j]).basis);
    assert gs[j] in gs;
    if endpoints != [] {
      assert endpoints[i] in endpoints;
    }
  }

  /** Resolution fails exactly when no granted pair is independent, if the digest never collides. */
  lemma UnavailableIffNoneIndependent(hash: Hash, req: Request, gs: seq<Grant>, p: Portfolio,
                                      sources: seq<Option<Endpoint>>, policyDigest: string, r: Result)
    requires req.Valid() && Injective(hash) && Answers(hash, req, gs, p, sources, policyDigest, r)
    ensures r == Failed(ModelUnavailable) <==>
      forall s, g ::
        s in sources && g in gs && Fits(req, p, s, g) ==> !Independent(req, CandidateOf(req, p, s, g).basis)
  {
    hide Fits, CandidateOf, Passes, Independent, Injective;
    forall s, g | s in sources && g in gs && Fits(req, p, s, g)
      ensures Accepts(hash, req, p, s, g) <==> Independent(req, CandidateOf(req, p, s, g).basis)
    {
      PassesIffIndependent(hash, req, CandidateOf(req, p, s, g).basis);
    }
    match r
    case Found(e) =>
      var i, j :| 0 <= i < |sources| && 0 <= j < |gs| && Accepts(hash, req, p, sources[i], gs[j]);
      assert sources[i] in sources && gs[j] in gs;
    case Failed(_) =>
      forall s, g | s in sources && g in gs ensures !Accepts(hash, req, p, s, g) {
        var i :| 0 <= i < |sources| && sources[i] == s;
        var j :| 0 <= j < |gs| && gs[j] == g;
        assert !Accepts(hash, req, p, sources[i], gs[j]);
      }
  }

  // ----- The answer in terms of the endpoints and grants themselves ------------------------------------

  /** The grant covers this endpoint in the role and with the exposure asked for, and the
      portfolio reaches the endpoint and does not exclude it. */
  ghost predicate Covers(g: Grant, x: Endpoint, req: Request, p: Portfolio) {
    && g.endpoint == x.id && (x.model == "" || g.model == x.model) && req.role in g.roles
    && !Routing.MorePrivate(g.exposure, req.need)
    && x.id !in p.excluded && ChannelFor(p, req.role, x.id).Some?
  }

  /** The endpoint, under the granted model, is none of the actors the request excludes. Under the
      account basis that has to be known of its own provider, family and account. */
  ghost predicate IsOther(req: Request, x: Endpoint, model: string) {
    match req.basis
    case EndpointModel => forall a :: a in req.excluded ==> x.id != a.endpoint || model != a.model
    case ModelFamilyAccount =>
      req.excluded != [] ==>
        && !Blank(x.provider) && !Blank(x.family) && !Blank(x.account)
        && forall a :: a in req.excluded ==> x.provider != a.provider || x.family != a.family || x.account != a.account
    case OtherBasis(_) => req.excluded == []
  }

  /** What is returned says of the endpoint, the grant and the channel what they say themselves. */
  ghost predicate Presents(e: Resolved, x: Endpoint, g: Grant, req: Request, p: Portfolio, policyDigest: string) {
    && e.basis.endpoint == x.id && e.basis.model == g.model && e.basis.revision == ""
    && e.basis.provider == x.provider && e.basis.family == x.family && e.basis.account == x.account
    && e.locality == g.locality && e.limits == g.limits && Some(e.channel) == ChannelFor(p, req.role, x.id)
    && (x.kind != "" ==> e.kind == x.kind) && (x.kind == "" ==> KindFits(e.kind, e.channel.kind))
    && e.policyDigest == policyDigest
    && e.portfolioDigest == if req.portfolioDigest != "" then req.portfolioDigest else p.id
  }

  /** The kind of endpoint behind a kind of channel. */
  ghost predicate KindFits(kind: string, channelKind: string) {
    && (kind == "authenticated_cli" <==> channelKind == "cli_subprocess")
    && (kind == "remote_api" <==> channelKind in {"direct_http_api", "remote_agent_proxy"})
    && (kind == "local_runtime" <==> channelKind !in {"cli_subprocess", "direct_http_api", "remote_agent_proxy"})
  }

  lemma KindOfFits(channelKind: string)
    ensures KindFits(KindOf(channelKind), channelKind)
  {
  }

  /** What the resolver knows when no endpoint is known: the grant's endpoint and nothing of it. */
  function Unknown(g: Grant): Endpoint {
    Endpoint(g.endpoint, "", "", "", "", "", "")
  }

  /** The endpoints a grant is offered with. */
  function Known(endpoints: seq<Endpoint>, i: int, g: Grant): Endpoint
    requires 0 <= i < |Sources(endpoints)|
  {
    if endpoints == [] then Unknown(g) else endpoints[i]
  }

  lemma FitsIff(req: Request, p: Portfolio, endpoints: seq<Endpoint>, i: int, g: Grant)
    requires 0 <= i < |Sources(endpoints)|
    ensures Fits(req, p, Sources(endpoints)[i], g) <==> Covers(g, Known(endpoints, i, g), req, p)
  {
    hide ChannelFor, Routing.MorePrivate;
    Routing.RanksSay(Routing.Unknown, Routing.Unknown, Routing.LocalCompute, Routing.LocalCompute, g.exposure,
                     req.need);
  }

  lemma CandidateSays(req: Request, p: Portfolio, endpoints: seq<Endpoint>, i: int, g: Grant, policyDigest: string)
    requires 0 <= i < |Sources(endpoints)| && Fits(req, p, Sources(endpoints)[i], g) && req.Valid()
    ensures
      var x, c := Known(endpoints, i, g), CandidateOf(req, p, Sources(endpoints)[i], g);
      && Presents(Unbound(req, p, policyDigest, c), x, g, req, p, policyDigest)
      && (Independent(req, c.basis) <==> IsOther(req, x, g.model))
  {
    hide ChannelFor, Blank, Selected;
    KindOfFits(ChannelFor(p, req.role, EndpointId(Sources(endpoints)[i], g)).value.kind);
  }

  /** The grant covers the `i`-th known endpoint, which is none of the excluded actors. */
  ghost predicate Suits(req: Request, p: Portfolio, endpoints: seq<Endpoint>, i: int, g: Grant)
    requires 0 <= i < |Sources(endpoints)|
  {
    Covers(g, Known(endpoints, i, g), req, p) && IsOther(req, Known(endpoints, i, g), g.model)
  }

  /** The found endpoint is a known one, as it is, covered by a grant and none of the excluded
      actors, whatever the digest does; and if the digest never collides, no earlier pair of an
      endpoint and a grant would have suited. */
  lemma FoundIsThatEndpoint(hash: Hash, req: Request, gs: seq<Grant>, p: Portfolio, endpoints: seq<Endpoint>,
                            policyDigest: string, e: Resolved)
    requires req.Valid() && Answers(hash, req, gs, p, Sources(endpoints), policyDigest, Found(e))
    ensures exists i, j ::
      && 0 <= i < |Sources(endpoints)| && 0 <= j < |gs| && Suits(req, p, endpoints, i, gs[j])
      && Presents(e, Known(endpoints, i, gs[j]), gs[j], req, p, policyDigest)
      && (Injective(hash) ==>
            forall k, l :: 0 <= k < |Sources(endpoints)| && 0 <= l < |gs| && Earlier(k, l, i, j) ==>
              !Suits(req, p, endpoints, k, gs[l]))
  {
    hide Presents, Suits, Passes, CandidateOf, Unbound, Injective, Sources;
    var sources := Sources(endpoints);
    var i, j :| 0 <= i < |sources| && 0 <= j < |gs| && Accepts(hash, req, p, sources[i], gs[j])
      && e == Unbound(req, p, policyDigest, CandidateOf(req, p, sources[i], gs[j]))
      && forall k, l :: 0 <= k < |sources| && 0 <= l < |gs| && Earlier(k, l, i, j) ==>
        !Accepts(hash, req, p, sources[k], gs[l]);
    AcceptedSuits(hash, req, p, endpoints, i, gs[j]);
    CandidateSays(req, p, endpoints, i, gs[j], policyDigest);
    if Injective(hash) {
      forall k, l | 0 <= k < |sources| && 0 <= l < |gs| && Earlier(k, l, i, j)
        ensures !Suits(req, p, endpoints, k, gs[l])
      {
        AcceptedSuits(hash, req, p, endpoints, k, gs[l]);
      }
    }
  }

  lemma AcceptedSuits(hash: Hash, req: Request, p: Portfolio, endpoints: seq<Endpoint>, i: int, g: Grant)
    requires 0 <= i < |Sources(endpoints)| && req.Valid()
    ensures Accepts(hash, req, p, Sources(endpoints)[i], g) ==> Suits(req, p, endpoints, i, g)
    ensures Injective(hash) && Suits(req, p, endpoints, i, g) ==> Accepts(hash, req, p, Sources(endpoints)[i], g)
  {
    hide Covers, IsOther, Independent, Passes, CandidateOf, Fits, Injective, Presents, Sources;
    var source := Sources(endpoints)[i];
    FitsIff(req, p, endpoints, i, g);
    if Fits(req, p, source, g) {
      CandidateSays(req, p, endpoints, i, g, "");
      if Passes(hash, req, CandidateOf(req, p, source, g).basis) {
        PassingIsIndependent(hash, req, CandidateOf(req, p, source, g).basis);
      }
      if Injective(hash) {
        PassesIffIndependent(hash, req, CandidateOf(req, p, source, g).basis);
      }
    }
  }

  /** Resolution fails exactly when every known endpoint a grant covers is one of the excluded
      actors, or not known well enough to tell, if the digest never collides. */
  lemma FailedIffNoneOther(hash: Hash, req: Request, gs: seq<Grant>, p: Portfolio, endpoints: seq<Endpoint>,
                           policyDigest: string, r: Result)
    requires req.Valid() && Injective(hash) && Answers(hash, req, gs, p, Sources(endpoints), policyDigest, r)
    ensures r == Failed(ModelUnavailable) <==>
      forall i, j :: 0 <= i < |Sources(endpoints)| && 0 <= j < |gs| ==> !Suits(req, p, endpoints, i, gs[j])
  {
    hide Suits, Accepts, Unbound, Injective, Sources, CandidateOf;
    var sources := Sources(endpoints);
    match r
    case Found(e) =>
      var i, j :| 0 <= i < |sources| && 0 <= j < |gs| && Accepts(hash, req, p, sources[i], gs[j]);
      AcceptedSuits(hash, req, p, endpoints, i, gs[j]);
    case Failed(_) =>
      forall i, j | 0 <= i < |sources| && 0 <= j < |gs| ensures !Suits(req, p, endpoints, i, gs[j]) {
        AcceptedSuits(hash, req, p, endpoints, i, gs[j]);
        assert !Accepts(hash, req, p, sources[i], gs[j]);
      }
  }

  /** Without known endpoints an account cannot be told from another: no review is resolved. */
  lemma AccountsNeedEndpoints(hash: Hash, req: Request, gs: seq<Grant>, p: Portfolio, policyDigest: string, r: Result)
    requires req.Valid() && Answers(hash, req, gs, p, Sources([]), policyDigest, r)
    requires req.basis == ModelFamilyAccount && req.excluded != []
    ensures r == Failed(ModelUnavailable)
  {
    hide Covers, Presents, Answers;
    if r.Found? {
      FoundIsThatEndpoint(hash, req, gs, p, [], policyDigest, r.endpoint);
    } else {
      FailsOnlyAsUnavailable(hash, req, gs, p, Sources([]), policyDigest, r);
    }
  }

  lemma FailsOnlyAsUnavailable(hash: Hash, req: Request, gs: seq<Grant>, p: Portfolio, sources: seq<Option<Endpoint>>,
                               policyDigest: string, r: Result)
    requires Answers(hash, req, gs, p, sources, policyDigest, r) && r.Failed?
    ensures r == Failed(ModelUnavailable)
  {
  }

  /** The first acceptable pair is one answer: there is no other. */
  lemma AnswerIsUnique(hash: Hash, req: Request, gs: seq<Grant>, p: Portfolio, sources: seq<Option<Endpoint>>,
                       policyDigest: string, a: Result, b: Result)
    requires Answers(hash, req, gs, p, sources, policyDigest, a) && Answers(hash, req, gs, p, sources, policyDigest, b)
    ensures a == b
  {
    hide CandidateOf, Fits, Passes;
    if a.Found? && b.Found? {
      var i, j :| 0 <= i < |sources| && 0 <= j < |gs| && Accepts(hash, req, p, sources[i], gs[j])
        && a.endpoint == Unbound(req, p, policyDigest, CandidateOf(req, p, sources[i], gs[j]))
        && forall k, l :: 0 <= k < |sources| && 0 <= l < |gs| && Earlier(k, l, i, j) ==>
          !Accepts(hash, req, p, sources[k], gs[l]);
      var m, n :| 0 <= m < |sources| && 0 <= n < |gs| && Accepts(hash, req, p, sources[m], gs[n])
        && b.endpoint == Unbound(req, p, policyDigest, CandidateOf(req, p, sources[m], gs[n]))
        && forall k, l :: 0 <= k < |sources| && 0 <= l < |gs| && Earlier(k, l, m, n) ==>
          !Accepts(hash, req, p, sources[k], gs[l]);
      assert !Earlier(i, j, m, n) && !Earlier(m, n, i, j);
    }
  }
}

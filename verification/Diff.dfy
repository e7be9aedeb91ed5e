/** The semantic difference between two portfolios: keyed comparison of channels, role
    bindings and budget pools, and of the portfolio's own policy fields. */
module Diff {
  import opened Text
  import opened Sorting

  // ----- Portfolios, as far as they are compared -----------------------------------------

  datatype Channel = Channel(
    id: string, endpoint: string, kind: string, session: string, contextControl: string, prefixCache: string,
    streaming: bool, tools: bool, worktree: bool, concurrency: int)

  datatype Pool = Pool(
    id: string, name: string, regime: string, hardLimit: int, softLimit: int, unit: string, period: string,
    allowOverage: bool, fallbackToMetered: bool)

  datatype Route = Route(endpoint: string, channel: string, pool: string, profile: string)

  datatype Binding = Binding(role: string, priority: int, primary: Route, fallbacks: seq<Route>)

  datatype Diversity = Diversity(models: bool, providers: bool, endpoints: bool)

  datatype Defaults = Defaults(topology: string, timeout: int, retries: int)

  datatype Portfolio = Portfolio(
    id: string, revision: int, channels: seq<Channel>, bindings: seq<Binding>, pools: seq<Pool>,
    maxExposure: string, excluded: seq<string>, diversity: Option<Diversity>, defaults: Option<Defaults>)

  // ----- Rendering --------------------------------------------------------------------------

  function ShowInt(n: int): string {
    if n < 0 then "-" + Digits(-n) else Digits(n)
  }

  function ShowBool(b: bool): string {
    if b then "true" else "false"
  }

  datatype Value = Str(s: string) | Num(n: int) | Flag(b: bool) {
    function Show(): string {
      match this
      case Str(s) => s
      case Num(n) => ShowInt(n)
      case Flag(b) => ShowBool(b)
    }
  }

  function Joined(parts: seq<string>, separator: string): string {
    if parts == [] then ""
    else if |parts| == 1 then parts[0]
    else parts[0] + separator + Joined(parts[1..], separator)
  }

  function ShowRoute(r: Route): string {
    "[" + r.endpoint + "/" + r.channel + "/" + r.pool + "/" + r.profile + "]"
  }

  function FormatFallbacks(rs: seq<Route>): string {
    Joined(seq(|rs|, i requires 0 <= i < |rs| => ShowRoute(rs[i])), ", ")
  }

  function ShowEndpoints(d: Diversity): string {
    "endpoints=" + ShowBool(d.endpoints)
  }

  function ShowProviders(d: Diversity): string {
    "providers=" + (ShowBool(d.providers) + "," + ShowEndpoints(d))
  }

  function FormatDiversity(d: Option<Diversity>): string {
    if d.None? then "" else "models=" + (ShowBool(d.value.models) + "," + ShowProviders(d.value))
  }

  function FormatDefaults(d: Option<Defaults>): string {
    if d.None? then ""
    else "topology=" + d.value.topology + ",timeout=" + ShowInt(d.value.timeout) + ",retries="
         + ShowInt(d.value.retries)
  }

  /** How values, bindings, fallbacks, diversity and defaults are printed. */
  lemma PrintedExamples()
    ensures ShowInt(-7) == "-7" && ShowInt(0) == "0" && ShowBool(true) == "true" && ShowBool(false) == "false"
    ensures BindingKey("r", 1) == "r#1" && Joined(["a", "b"], ",") == "a,b"
    ensures FormatFallbacks([]) == FormatDiversity(None) == FormatDefaults(None) == ""
  {
    assert Digits(7) == "7" && Digits(0) == "0" && Digits(1) == "1";
    assert ["a", "b"][1..] == ["b"];
  }

  lemma DiversityIsPrinted(d: Diversity)
    ensures
      var m, p, e := ShowBool(d.models), ShowBool(d.providers), ShowBool(d.endpoints);
      FormatDiversity(Some(d)) == "models=" + (m + "," + ("providers=" + (p + "," + ("endpoints=" + e))))
  {
    hide ShowBool;
  }

  lemma DefaultsExample()
    ensures FormatDefaults(Some(Defaults("t", 6, 2))) == "topology=t,timeout=6,retries=2"
  {
    assert ShowInt(6) == "6" && ShowInt(2) == "2";
  }

  lemma FallbacksExample()
    ensures FormatFallbacks([Route("e", "c", "b", "p"), Route("f", "d", "g", "q")]) == "[e/c/b/p], [f/d/g/q]"
  {
    var a, b := Route("e", "c", "b", "p"), Route("f", "d", "g", "q");
    assert ShowRoute(a) == "[e/c/b/p]" && ShowRoute(b) == "[f/d/g/q]";
    var shown := seq(2, i requires 0 <= i < 2 => ShowRoute([a, b][i]));
    assert shown == ["[e/c/b/p]", "[f/d/g/q]"] && shown[1..] == ["[f/d/g/q]"];
    assert Joined(shown[1..], ", ") == "[f/d/g/q]";
  }

  // ----- Keyed views ---------------------------------------------------------------------------

  /** An entity as the diff sees it: its key and its compared fields, in order. */
  datatype Item = Item(key: string, view: seq<Value>)

  const CHANNEL_FIELDS := ["endpoint_id", "kind", "session_mode", "context_control", "prefix_cache",
                           "supports_streaming",
                           "supports_tools", "native_worktree_access", "max_concurrent_requests"]
  const BINDING_FIELDS := ["endpoint_id", "channel_id", "budget_pool_id", "context_profile_id", "fallbacks"]
  const POOL_FIELDS := ["name", "regime", "hard_limit", "soft_alert_limit", "unit", "period"]

  function ChannelItem(c: Channel): Item {
    Item(c.id, [Str(c.endpoint), Str(c.kind), Str(c.session), Str(c.contextControl), Str(c.prefixCache),
                Flag(c.streaming),
                Flag(c.tools), Flag(c.worktree), Num(c.concurrency)])
  }

  function BindingKey(role: string, priority: int): string {
    role + "#" + ShowInt(priority)
  }

  function BindingItem(b: Binding): Item {
    Item(BindingKey(b.role, b.priority),
         [Str(b.primary.endpoint), Str(b.primary.channel), Str(b.primary.pool), Str(b.primary.profile),
          Str(FormatFallbacks(b.fallbacks))])
  }

  function PoolItem(p: Pool): Item {
    Item(p.id, [Str(p.name), Str(p.regime), Num(p.hardLimit), Num(p.softLimit), Str(p.unit), Str(p.period)])
  }

  function Channels(p: Portfolio): seq<Item> {
    seq(|p.channels|, i requires 0 <= i < |p.channels| => ChannelItem(p.channels[i]))
  }

  function BindingItems(bs: seq<Binding>): seq<Item> {
    seq(|bs|, i requires 0 <= i < |bs| => BindingItem(bs[i]))
  }

  function Bindings(p: Portfolio): seq<Item> {
    BindingItems(p.bindings)
  }

  function Pools(p: Portfolio): seq<Item> {
    seq(|p.pools|, i requires 0 <= i < |p.pools| => PoolItem(p.pools[i]))
  }

  type View = map<string, seq<Value>>

  /** The map built from a list: the last entry of a key stays. */
  function Index(items: seq<Item>): View {
    if items == [] then map[]
    else
      var last := items[|items| - 1];
      Index(items[..|items| - 1])[last.key := last.view]
  }

  /** Every entry has exactly the compared fields. */
  ghost predicate Shaped(v: View, fields: seq<string>) {
    forall k :: k in v ==> |v[k]| == |fields|
  }

  // ----- Changes -----------------------------------------------------------------------------------

  datatype FieldChange = FieldChange(field: string, before: string, after: string) {
    function Mirrored(): FieldChange {
      FieldChange(field, after, before)
    }
  }

  datatype Delta = Added | Removed | Modified(details: seq<FieldChange>) {
    function Mirrored(): Delta {
      match this
      case Added => Removed
      case Removed => Added
      case Modified(details) => Modified(MirroredChanges(details))
    }
  }

  datatype ItemDiff = ItemDiff(id: string, delta: Delta) {
    function Mirrored(): ItemDiff {
      ItemDiff(id, delta.Mirrored())
    }
  }

  function MirroredChanges(cs: seq<FieldChange>): seq<FieldChange> {
    seq(|cs|, i requires 0 <= i < |cs| => cs[i].Mirrored())
  }

  function MirroredDiffs(ds: seq<ItemDiff>): seq<ItemDiff> {
    seq(|ds|, i requires 0 <= i < |ds| => ds[i].Mirrored())
  }

  /** The changed fields, in the order of the fields. */
  function Details(fields: seq<string>, base: seq<Value>, cand: seq<Value>): (r: seq<FieldChange>)
    requires |base| == |cand| == |fields|
    ensures r == [] <==> base == cand
  {
    if fields == [] then []
    else
      var n := |fields| - 1;
      assert base == base[..n] + [base[n]] && cand == cand[..n] + [cand[n]];
      Details(fields[..n], base[..n], cand[..n])
      + if cand[n] != base[n] then [FieldChange(fields[n], base[n].Show(), cand[n].Show())] else []
  }

  /** What happened to a key, if anything. */
  function Change(fields: seq<string>, base: View, cand: View, k: string): Option<ItemDiff>
    requires Shaped(base, fields) && Shaped(cand, fields)
  {
    if k in cand && k !in base then Some(ItemDiff(k, Added))
    else if k in base && k !in cand then Some(ItemDiff(k, Removed))
    else if k in base && k in cand && base[k] != cand[k] then
      Some(ItemDiff(k, Modified(Details(fields, base[k], cand[k]))))
    else None
  }

  function ById(): (ItemDiff, ItemDiff) -> bool {
    (a: ItemDiff, b: ItemDiff) => TextLess(a.id, b.id)
  }

  /** The difference of two views: one entry for each changed key, in key order. */
  ghost predicate IsDiff(fields: seq<string>, base: View, cand: View, ds: seq<ItemDiff>)
    requires Shaped(base, fields) && Shaped(cand, fields)
  {
    Ascending(ds, ById()) && forall d :: d in ds <==> Change(fields, base, cand, d.id) == Some(d)
  }

  lemma ByIdOrders(ds: set<ItemDiff>)
    requires forall a, b :: a in ds && b in ds && a.id == b.id ==> a == b
    ensures Orders(ById(), ds)
  {
    forall a, b | a in ds && b in ds ensures !ById()(a, a) && (a != b ==> ById()(a, b) || ById()(b, a)) {
      TextOrder(a.id, b.id);
    }
    forall a, b, c | a in ds && b in ds && c in ds && ById()(a, b) && ById()(b, c) ensures ById()(a, c) {
      TextTransitive(a.id, b.id, c.id);
    }
  }

  /** There is one such list, whatever order the keys are visited in. */
  lemma DiffIsUnique(fields: seq<string>, base: View, cand: View, a: seq<ItemDiff>, b: seq<ItemDiff>)
    requires Shaped(base, fields) && Shaped(cand, fields) && IsDiff(fields, base, cand, a)
    requires IsDiff(fields, base, cand, b)
    ensures a == b
  {
    hide Change, Orders, Ascending;
    assert forall d :: d in Elements(a) <==> d in a;
    assert forall d :: d in Elements(b) <==> d in b;
    assert Elements(a) == Elements(b);
    ByIdOrders(Elements(a));
    AscendingUnique(a, b, ById());
  }

  lemma ChangeIsListed(fields: seq<string>, base: View, cand: View, ds: seq<ItemDiff>, k: string)
    requires Shaped(base, fields) && Shaped(cand, fields) && IsDiff(fields, base, cand, ds)
    ensures Change(fields, base, cand, k).Some? ==> ds != []
  {
    var c := Change(fields, base, cand, k);
    if c.Some? {
      assert c.value in ds;
    }
  }

  /** The difference is empty exactly when the views agree. */
  lemma EmptyIff(fields: seq<string>, base: View, cand: View, ds: seq<ItemDiff>)
    requires Shaped(base, fields) && Shaped(cand, fields) && IsDiff(fields, base, cand, ds)
    ensures ds == [] <==> base == cand
  {
    if ds == [] {
      forall k: string ensures (k in base <==> k in cand) && (k in base ==> base[k] == cand[k]) {
        ChangeIsListed(fields, base, cand, ds, k);
      }
      assert base.Keys == cand.Keys;
    } else {
      assert ds[0] in ds;
    }
  }

  lemma {:induction false} DetailsMirror(fields: seq<string>, base: seq<Value>, cand: seq<Value>)
    requires |base| == |cand| == |fields|
    ensures Details(fields, cand, base) == MirroredChanges(Details(fields, base, cand))
  {
    if fields != [] {
      var n := |fields| - 1;
      DetailsMirror(fields[..n], base[..n], cand[..n]);
    }
  }

  lemma ChangeMirrors(fields: seq<string>, base: View, cand: View, k: string)
    requires Shaped(base, fields) && Shaped(cand, fields)
    ensures
      var there, back := Change(fields, base, cand, k), Change(fields, cand, base, k);
      if there.None? then back.None? else back == Some(there.value.Mirrored())
  {
    if k in base && k in cand {
      DetailsMirror(fields, base[k], cand[k]);
    }
  }

  lemma MirrorTwice(d: ItemDiff)
    ensures d.Mirrored().Mirrored() == d
  {
    if d.delta.Modified? {
      var cs := d.delta.details;
      assert MirroredChanges(MirroredChanges(cs)) == cs;
    }
  }

  /** Swapping the arguments swaps added with removed and old values with new ones. */
  lemma SwapMirrors(fields: seq<string>, base: View, cand: View, ds: seq<ItemDiff>)
    requires Shaped(base, fields) && Shaped(cand, fields) && IsDiff(fields, base, cand, ds)
    ensures IsDiff(fields, cand, base, MirroredDiffs(ds))
  {
    hide Change;
    var ms := MirroredDiffs(ds);
    forall i, j | 0 <= i < j < |ms| ensures ById()(ms[i], ms[j]) {
      assert ById()(ds[i], ds[j]);
    }
    forall d ensures d in ms <==> Change(fields, cand, base, d.id) == Some(d) {
      ChangeMirrors(fields, base, cand, d.id);
      MirrorTwice(d);
      if d in ms {
        var i :| 0 <= i < |ms| && ms[i] == d;
        assert ds[i] in ds;
        MirrorTwice(ds[i]);
      }
      if Change(fields, cand, base, d.id) == Some(d) {
        var there := Change(fields, base, cand, d.id);
        MirrorTwice(there.value);
        assert there == Some(d.Mirrored());
        assert d.Mirrored() in ds;
        var i :| 0 <= i < |ds| && ds[i] == d.Mirrored();
        assert ms[i] == d;
      }
    }
  }

  // ----- The algorithm -------------------------------------------------------------------------------

  method IndexItems(items: seq<Item>) returns (v: View)
    ensures v == Index(items)
  {
    v := map[];
    for i := 0 to |items|
      invariant v == Index(items[..i])
    {
      assert items[..i + 1][..i] == items[..i];
      v := v[items[i].key := items[i].view];
    }
    assert items[..|items|] == items;
  }

  ghost predicate ItemsShaped(items: seq<Item>, fields: seq<string>) {
    forall i :: i in items ==> |i.view| == |fields|
  }

  lemma {:induction false} IndexIsShaped(items: seq<Item>, fields: seq<string>)
    requires ItemsShaped(items, fields)
    ensures Shaped(Index(items), fields)
  {
    if items != [] {
      var last := items[|items| - 1];
      assert last in items;
      IndexIsShaped(items[..|items| - 1], fields);
    }
  }

  /** diffChannels, diffRoleBindings and diffBudgetPools: two passes over maps, whose keys come
      in any order, and one sort. */
  method DiffItems(fields: seq<string>, baseList: seq<Item>, candList: seq<Item>) returns (ds: seq<ItemDiff>)
    requires ItemsShaped(baseList, fields) && ItemsShaped(candList, fields)
    ensures Shaped(Index(baseList), fields) && Shaped(Index(candList), fields)
    ensures IsDiff(fields, Index(baseList), Index(candList), ds)
  {
    var base := IndexItems(baseList);
    var cand := IndexItems(candList);
    IndexIsShaped(baseList, fields);
    IndexIsShaped(candList, fields);
    var found := AddedAndModified(fields, base, cand);
    found := WithRemoved(fields, base, cand, found);
    ListsAll(fields, base, cand, found);
    ds := Sort(found, ById());
  }

  method AddedAndModified(fields: seq<string>, base: View, cand: View) returns (found: seq<ItemDiff>)
    requires Shaped(base, fields) && Shaped(cand, fields)
    ensures Lists(fields, base, cand, cand.Keys, found)
  {
    found := [];
    ListsNone(fields, base, cand);
    hide Lists, Details;
    var left := cand.Keys;
    ghost var done: set<string> := {};
    while left != {}
      invariant left !! done && left + done == cand.Keys
      invariant Lists(fields, base, cand, done, found)
      decreases |left|
    {
      var id :| id in left;
      ListsOneMore(fields, base, cand, done, found, id);
      if id !in base {
        found := found + [ItemDiff(id, Added)];
      } else {
        var details := Details(fields, base[id], cand[id]);
        if |details| > 0 {
          found := found + [ItemDiff(id, Modified(details))];
        }
      }
      left := left - {id};
      done := done + {id};
    }
    assert done == cand.Keys;
  }

  method WithRemoved(fields: seq<string>, base: View, cand: View, before: seq<ItemDiff>) returns (found: seq<ItemDiff>)
    requires Shaped(base, fields) && Shaped(cand, fields) && Lists(fields, base, cand, cand.Keys, before)
    ensures Lists(fields, base, cand, cand.Keys + base.Keys, found)
  {
    hide Lists, Visited;
    found := before;
    var left := base.Keys;
    VisitAll(cand.Keys, base.Keys);
    while left != {}
      invariant left <= base.Keys
      invariant Lists(fields, base, cand, Visited(cand.Keys, base.Keys, left), found)
      decreases |left|
    {
      var id :| id in left;
      VisitOne(cand.Keys, base.Keys, left, id);
      if id !in cand {
        ListsOneMore(fields, base, cand, Visited(cand.Keys, base.Keys, left), found, id);
        found := found + [ItemDiff(id, Removed)];
      }
      left := left - {id};
    }
  }

  ghost function Visited(cand: set<string>, base: set<string>, left: set<string>): set<string> {
    cand + (base - left)
  }

  lemma VisitAll(cand: set<string>, base: set<string>)
    ensures Visited(cand, base, base) == cand && Visited(cand, base, {}) == cand + base
  {
  }

  lemma VisitOne(cand: set<string>, base: set<string>, left: set<string>, k: string)
    requires k in left && left <= base
    ensures Visited(cand, base, left - {k}) == Visited(cand, base, left) + if k in cand then {} else {k}
    ensures k !in cand ==> k !in Visited(cand, base, left)
  {
  }

  lemma ListsNone(fields: seq<string>, base: View, cand: View)
    requires Shaped(base, fields) && Shaped(cand, fields)
    ensures Lists(fields, base, cand, {}, [])
  {
  }

  /** `found` has exactly the changes of the keys visited, one entry each. */
  ghost predicate Lists(fields: seq<string>, base: View, cand: View, keys: set<string>, found: seq<ItemDiff>)
    requires Shaped(base, fields) && Shaped(cand, fields)
  {
    Distinct(found) && forall d :: d in found <==> d.id in keys && Change(fields, base, cand, d.id) == Some(d)
  }

  lemma ListsOneMore(fields: seq<string>, base: View, cand: View, keys: set<string>, found: seq<ItemDiff>, k: string)
    requires Shaped(base, fields) && Shaped(cand, fields) && Lists(fields, base, cand, keys, found) && k !in keys
    ensures
      var c := Change(fields, base, cand, k);
      Lists(fields, base, cand, keys + {k}, if c.Some? then found + [c.value] else found)
  {
    var c := Change(fields, base, cand, k);
    if c.Some? {
      assert c.value.id == k && c.value !in found;
    }
  }

  lemma ListsAll(fields: seq<string>, base: View, cand: View, found: seq<ItemDiff>)
    requires Shaped(base, fields) && Shaped(cand, fields) && Lists(fields, base, cand, cand.Keys + base.Keys, found)
    ensures IsDiff(fields, base, cand, Sort(found, ById()))
  {
    assert forall d: ItemDiff :: d in Elements(found) <==> d in found;
    ByIdOrders(Elements(found));
    SortSorts(found, ById());
    var ds := Sort(found, ById());
    assert forall d: ItemDiff :: d in Elements(ds) <==> d in ds;
  }

  // ----- Portfolios ------------------------------------------------------------------------------------

  function Changed(field: string, base: string, cand: string): seq<FieldChange> {
    if cand != base then [FieldChange(field, base, cand)] else []
  }

  function DiffPolicies(base: Portfolio, cand: Portfolio): seq<FieldChange> {
    Changed("max_source_exposure", base.maxExposure, cand.maxExposure)
    + Changed("excluded_endpoint_ids", Joined(base.excluded, ","), Joined(cand.excluded, ","))
    + Changed("diversity_requirements", FormatDiversity(base.diversity), FormatDiversity(cand.diversity))
    + Changed("workflow_defaults", FormatDefaults(base.defaults), FormatDefaults(cand.defaults))
  }

  /** Every change of the portfolio's own policies, under its own name. */
  lemma PolicyChangesIff(base: Portfolio, cand: Portfolio, c: FieldChange)
    ensures c in DiffPolicies(base, cand) <==>
      c.before != c.after &&
      match c.field
      case "max_source_exposure" => c.before == base.maxExposure && c.after == cand.maxExposure
      case "excluded_endpoint_ids" => c.before == Joined(base.excluded, ",") && c.after == Joined(cand.excluded, ",")
      case "diversity_requirements" =>
        c.before == FormatDiversity(base.diversity) && c.after == FormatDiversity(cand.diversity)
      case "workflow_defaults" => c.before == FormatDefaults(base.defaults) && c.after == FormatDefaults(cand.defaults)
      case _ => false
  {
    hide Joined, FormatDiversity, FormatDefaults;
  }

  /** Field `k` of the view is called `name` and shows `value`. */
  ghost predicate Shows(fields: seq<string>, view: seq<Value>, k: nat, name: string, value: Value) {
    |fields| == |view| && k < |fields| && fields[k] == name && view[k] == value
  }

  /** Each compared field of a channel, a binding and a pool is shown under its own name. */
  lemma ChannelShows(c: Channel)
    ensures
      var v := ChannelItem(c).view;
      && ChannelItem(c).key == c.id
      && Shows(CHANNEL_FIELDS, v, 0, "endpoint_id", Str(c.endpoint)) && Shows(CHANNEL_FIELDS, v, 1, "kind", Str(c.kind))
      && Shows(CHANNEL_FIELDS, v, 2, "session_mode", Str(c.session))
      && Shows(CHANNEL_FIELDS, v, 3, "context_control", Str(c.contextControl))
      && Shows(CHANNEL_FIELDS, v, 4, "prefix_cache", Str(c.prefixCache))
      && Shows(CHANNEL_FIELDS, v, 5, "supports_streaming", Flag(c.streaming))
      && Shows(CHANNEL_FIELDS, v, 6, "supports_tools", Flag(c.tools))
      && Shows(CHANNEL_FIELDS, v, 7, "native_worktree_access", Flag(c.worktree))
      && Shows(CHANNEL_FIELDS, v, 8, "max_concurrent_requests", Num(c.concurrency))
  {
  }

  lemma BindingShows(b: Binding)
    ensures
      var v := BindingItem(b).view;
      && Shows(BINDING_FIELDS, v, 0, "endpoint_id", Str(b.primary.endpoint))
      && Shows(BINDING_FIELDS, v, 1, "channel_id", Str(b.primary.channel))
      && Shows(BINDING_FIELDS, v, 2, "budget_pool_id", Str(b.primary.pool))
      && Shows(BINDING_FIELDS, v, 3, "context_profile_id", Str(b.primary.profile))
      && Shows(BINDING_FIELDS, v, 4, "fallbacks", Str(FormatFallbacks(b.fallbacks)))
  {
    hide FormatFallbacks;
  }

  lemma PoolShows(p: Pool)
    ensures
      var v := PoolItem(p).view;
      && PoolItem(p).key == p.id && Shows(POOL_FIELDS, v, 0, "name", Str(p.name))
      && Shows(POOL_FIELDS, v, 1, "regime", Str(p.regime)) && Shows(POOL_FIELDS, v, 2, "hard_limit", Num(p.hardLimit))
      && Shows(POOL_FIELDS, v, 3, "soft_alert_limit", Num(p.softLimit))
      && Shows(POOL_FIELDS, v, 4, "unit", Str(p.unit)) && Shows(POOL_FIELDS, v, 5, "period", Str(p.period))
  {
  }

  datatype PortfolioDiff = PortfolioDiff(
    from: string, to: string, fromRevision: int, toRevision: int,
    channels: seq<ItemDiff>, bindings: seq<ItemDiff>, pools: seq<ItemDiff>, policy: seq<FieldChange>, hasChanges: bool)

  lemma AllShaped(p: Portfolio)
    ensures ItemsShaped(Channels(p), CHANNEL_FIELDS) && ItemsShaped(Bindings(p), BINDING_FIELDS)
    ensures ItemsShaped(Pools(p), POOL_FIELDS)
    ensures Shaped(Index(Channels(p)), CHANNEL_FIELDS) && Shaped(Index(Bindings(p)), BINDING_FIELDS)
    ensures Shaped(Index(Pools(p)), POOL_FIELDS)
  {
    IndexIsShaped(Channels(p), CHANNEL_FIELDS);
    IndexIsShaped(Bindings(p), BINDING_FIELDS);
    IndexIsShaped(Pools(p), POOL_FIELDS);
  }

  /** What the difference of two portfolios has to be. */
  ghost predicate Describes(base: Portfolio, cand: Portfolio, d: PortfolioDiff) {
    AllShaped(base);
    AllShaped(cand);
    && d.from == base.id && d.to == cand.id && d.fromRevision == base.revision && d.toRevision == cand.revision
    && IsDiff(CHANNEL_FIELDS, Index(Channels(base)), Index(Channels(cand)), d.channels)
    && IsDiff(BINDING_FIELDS, Index(Bindings(base)), Index(Bindings(cand)), d.bindings)
    && IsDiff(POOL_FIELDS, Index(Pools(base)), Index(Pools(cand)), d.pools)
    && d.policy == DiffPolicies(base, cand)
    && (d.hasChanges <==> d.channels != [] || d.bindings != [] || d.pools != [] || d.policy != [])
  }

  ghost predicate UniqueKeys(items: seq<Item>) {
    forall i, j :: 0 <= i < j < |items| ==> items[i].key != items[j].key
  }

  lemma {:induction false} IndexHasTheKeys(items: seq<Item>, k: string)
    ensures k in Index(items) <==> exists i :: 0 <= i < |items| && items[i].key == k
  {
    if items != [] {
      var n := |items| - 1;
      IndexHasTheKeys(items[..n], k);
      if i :| 0 <= i < |items| && items[i].key == k {
        assert i < n ==> items[..n][i].key == k;
      }
    }
  }

  /** Without a base every entry is new: the difference from nothing, provided keys are unique. */
  method BootstrapItems(fields: seq<string>, items: seq<Item>) returns (ds: seq<ItemDiff>)
    requires ItemsShaped(items, fields)
    ensures Shaped(map[], fields) && Shaped(Index(items), fields)
    ensures UniqueKeys(items) ==> IsDiff(fields, map[], Index(items), ds)
  {
    IndexIsShaped(items, fields);
    var found: seq<ItemDiff> := [];
    for i := 0 to |items|
      invariant |found| == i && forall k :: 0 <= k < i ==> found[k] == ItemDiff(items[k].key, Added)
    {
      found := found + [ItemDiff(items[i].key, Added)];
    }
    ds := Sort(found, ById());
    if UniqueKeys(items) {
      forall d
        ensures d in found <==> d.id in Index(items).Keys && Change(fields, map[], Index(items), d.id) == Some(d)
      {
        IndexHasTheKeys(items, d.id);
      }
      var none: View := map[];
      assert Index(items).Keys + none.Keys == Index(items).Keys;
      ListsAll(fields, map[], Index(items), found);
    }
  }

  /** The first portfolio of all: everything is added, and there always is a change. */
  ghost predicate Introduces(cand: Portfolio, d: PortfolioDiff) {
    AllShaped(cand);
    && d.from == "" && d.to == cand.id && d.fromRevision == 0 && d.toRevision == cand.revision && d.hasChanges
    && (UniqueKeys(Channels(cand)) ==> IsDiff(CHANNEL_FIELDS, map[], Index(Channels(cand)), d.channels))
    && (UniqueKeys(Bindings(cand)) ==> IsDiff(BINDING_FIELDS, map[], Index(Bindings(cand)), d.bindings))
    && (UniqueKeys(Pools(cand)) ==> IsDiff(POOL_FIELDS, map[], Index(Pools(cand)), d.pools))
    && d.policy == Changed("max_source_exposure", "", cand.maxExposure)
  }

  method DiffPortfolios(base: Option<Portfolio>, cand: Option<Portfolio>) returns (r: Option<PortfolioDiff>)
    ensures r.Some? <==> cand.Some?
    ensures base.Some? && cand.Some? ==> Describes(base.value, cand.value, r.value)
    ensures base.None? && cand.Some? ==> Introduces(cand.value, r.value)
  {
    if cand.None? {
      return None;
    }
    var d: PortfolioDiff;
    if base.None? {
      d := BootstrapDiff(cand.value);
    } else {
      d := DiffBoth(base.value, cand.value);
    }
    r := Some(d);
  }

  method BootstrapDiff(cand: Portfolio) returns (d: PortfolioDiff)
    ensures Introduces(cand, d)
  {
    hide IsDiff, Index, UniqueKeys, Channels, Bindings, Pools;
    AllShaped(cand);
    var channels := BootstrapItems(CHANNEL_FIELDS, Channels(cand));
    var bindings := BootstrapItems(BINDING_FIELDS, Bindings(cand));
    var pools := BootstrapItems(POOL_FIELDS, Pools(cand));
    var policy := [];
    if cand.maxExposure != "" {
      policy := [FieldChange("max_source_exposure", "", cand.maxExposure)];
    }
    d := PortfolioDiff("", cand.id, 0, cand.revision, channels, bindings, pools, policy, true);
  }

  method DiffBoth(base: Portfolio, cand: Portfolio) returns (d: PortfolioDiff)
    ensures Describes(base, cand, d)
  {
    hide IsDiff, Index, DiffPolicies, Channels, Bindings, Pools;
    AllShaped(base);
    AllShaped(cand);
    var channels := DiffItems(CHANNEL_FIELDS, Channels(base), Channels(cand));
    var bindings := DiffItems(BINDING_FIELDS, Bindings(base), Bindings(cand));
    var pools := DiffItems(POOL_FIELDS, Pools(base), Pools(cand));
    var policy := DiffPolicies(base, cand);
    d := PortfolioDiff(base.id, cand.id, base.revision, cand.revision, channels, bindings, pools, policy,
                       |channels| > 0 || |bindings| > 0 || |pools| > 0 || |policy| > 0);
  }

  lemma PoliciesMirror(base: Portfolio, cand: Portfolio)
    ensures DiffPolicies(cand, base) == MirroredChanges(DiffPolicies(base, cand))
  {
    hide Joined, FormatDiversity, FormatDefaults;
  }

  /** Comparing the other way round tells the same story backwards. */
  lemma SwappedPortfoliosMirror(base: Portfolio, cand: Portfolio, d: PortfolioDiff, e: PortfolioDiff)
    requires Describes(base, cand, d) && Describes(cand, base, e)
    ensures e.channels == MirroredDiffs(d.channels) && e.bindings == MirroredDiffs(d.bindings)
    ensures e.pools == MirroredDiffs(d.pools)
    ensures e.policy == MirroredChanges(d.policy) && e.hasChanges == d.hasChanges
  {
    hide IsDiff, Index, DiffPolicies, Channels, Bindings, Pools, Shaped;
    AllShaped(base);
    AllShaped(cand);
    SwapIs(CHANNEL_FIELDS, Index(Channels(base)), Index(Channels(cand)), d.channels, e.channels);
    SwapIs(BINDING_FIELDS, Index(Bindings(base)), Index(Bindings(cand)), d.bindings, e.bindings);
    SwapIs(POOL_FIELDS, Index(Pools(base)), Index(Pools(cand)), d.pools, e.pools);
    PoliciesMirror(base, cand);
  }

  lemma SwapIs(fields: seq<string>, base: View, cand: View, ds: seq<ItemDiff>, es: seq<ItemDiff>)
    requires Shaped(base, fields) && Shaped(cand, fields) && IsDiff(fields, base, cand, ds)
    requires IsDiff(fields, cand, base, es)
    ensures es == MirroredDiffs(ds)
  {
    SwapMirrors(fields, base, cand, ds);
    DiffIsUnique(fields, cand, base, es, MirroredDiffs(ds));
  }

  // ----- When the difference is empty -----------------------------------------------------------------

  /** No changes are reported exactly when every compared view agrees. */
  lemma NoChangesIffViewsAgree(base: Portfolio, cand: Portfolio, d: PortfolioDiff)
    requires Describes(base, cand, d)
    ensures !d.hasChanges <==>
      && Index(Channels(base)) == Index(Channels(cand))
      && Index(Bindings(base)) == Index(Bindings(cand))
      && Index(Pools(base)) == Index(Pools(cand))
      && DiffPolicies(base, cand) == []
  {
    hide IsDiff, Index, DiffPolicies, Shaped;
    AllShaped(base);
    AllShaped(cand);
    EmptyIff(CHANNEL_FIELDS, Index(Channels(base)), Index(Channels(cand)), d.channels);
    EmptyIff(BINDING_FIELDS, Index(Bindings(base)), Index(Bindings(cand)), d.bindings);
    EmptyIff(POOL_FIELDS, Index(Pools(base)), Index(Pools(cand)), d.pools);
  }

  /** A digit or a minus sign: what a rendered number is made of. */
  predicate Numeric(c: char) {
    IsDigit(c) || c == '-'
  }

  lemma ShowIntInjective(m: int, n: int)
    requires ShowInt(m) == ShowInt(n)
    ensures m == n
  {
    var x := ShowInt(m);
    assert (m < 0 ==> x[0] == '-' && x[1..] == Digits(-m)) && (n < 0 ==> x[0] == '-' && x[1..] == Digits(-n));
    assert m < 0 <==> n < 0;
    DigitsRoundTrip(if m < 0 then -m else m);
    DigitsRoundTrip(if n < 0 then -n else n);
  }

  /** A number that closes a text after a character no number contains is determined by the text. */
  lemma TrailingNumber(a: string, m: int, b: string, n: int)
    requires a != [] && b != [] && !Numeric(a[|a| - 1]) && !Numeric(b[|b| - 1])
    requires a + ShowInt(m) == b + ShowInt(n)
    ensures a == b && m == n
  {
    var s := a + ShowInt(m);
    var x, y := ShowInt(m), ShowInt(n);
    assert forall k :: 0 <= k < |x| ==> Numeric(x[k]);
    assert forall k :: 0 <= k < |y| ==> Numeric(y[k]);
    assert s[|a| - 1] == a[|a| - 1] && s[|b| - 1] == b[|b| - 1];
    assert forall k :: |a| <= k < |s| ==> s[k] == x[k - |a|];
    assert forall k :: |b| <= k < |s| ==> s[k] == y[k - |b|];
    assert |a| == |b|;
    assert a == s[..|a|] == b && x == s[|a|..] == y;
    ShowIntInjective(m, n);
  }

  /** The key of a binding identifies its role and its priority, whatever the role is called. */
  lemma KeyIsInjective(role: string, priority: int, role': string, priority': int)
    requires BindingKey(role, priority) == BindingKey(role', priority')
    ensures role == role' && priority == priority'
  {
    TrailingNumber(role + "#", priority, role' + "#", priority');
    assert role == (role + "#")[..|role|] && role' == (role' + "#")[..|role'|];
  }

  /** Up to the first separator, two texts that agree agree on both sides. */
  lemma UpToSeparator(a: string, x: string, b: string, y: string, c: char)
    requires c !in a && c !in b && a + [c] + x == b + [c] + y
    ensures a == b && x == y
  {
    var s := a + [c] + x;
    assert s[|a|] == c && s[|b|] == c;
    assert forall k :: 0 <= k < |a| ==> s[k] == a[k];
    assert forall k :: 0 <= k < |b| ==> s[k] == b[k];
    assert a == s[..|a|] && b == s[..|b|];
    assert x == s[|a| + 1..] && y == s[|b| + 1..];
  }

  lemma DefaultsShowDifferently(a: Option<Defaults>, b: Option<Defaults>)
    requires FormatDefaults(a) == FormatDefaults(b)
    ensures a == b
  {
    if a.Some? && b.Some? {
      var x, y := a.value, b.value;
      var p, q := "topology=" + x.topology + ",timeout=", "topology=" + y.topology + ",timeout=";
      assert FormatDefaults(a) == (p + ShowInt(x.timeout) + ",retries=") + ShowInt(x.retries);
      assert FormatDefaults(b) == (q + ShowInt(y.timeout) + ",retries=") + ShowInt(y.retries);
      TrailingNumber(p + ShowInt(x.timeout) + ",retries=", x.retries, q + ShowInt(y.timeout) + ",retries=", y.retries);
      SameTail(p + ShowInt(x.timeout), q + ShowInt(y.timeout), ",retries=");
      TrailingNumber(p, x.timeout, q, y.timeout);
      SameTail("topology=" + x.topology, "topology=" + y.topology, ",timeout=");
      assert x.topology == ("topology=" + x.topology)[9..] && y.topology == ("topology=" + y.topology)[9..];
    }
  }

  lemma SameTail(a: string, b: string, tail: string)
    requires a + tail == b + tail
    ensures a == b
  {
    assert |a| == |b|;
    assert a == (a + tail)[..|a|] && b == (b + tail)[..|b|];
  }

  lemma BoolAndRest(p: bool, x: string, q: bool, y: string)
    requires ShowBool(p) + "," + x == ShowBool(q) + "," + y
    ensures p == q && x == y
  {
    assert ',' !in ShowBool(p) && ',' !in ShowBool(q);
    assert ShowBool(p)[0] != ShowBool(q)[0] ==> p != q;
    assert (ShowBool(p) + "," + x)[0] == ShowBool(p)[0] && (ShowBool(q) + "," + y)[0] == ShowBool(q)[0];
    UpToSeparator(ShowBool(p), x, ShowBool(q), y, ',');
  }

  lemma DiversityShowsDifferently(a: Option<Diversity>, b: Option<Diversity>)
    requires FormatDiversity(a) == FormatDiversity(b)
    ensures a == b
  {
    if a.Some? && b.Some? {
      SameDiversity(a.value, b.value);
    }
  }

  lemma SameDiversity(x: Diversity, y: Diversity)
    requires FormatDiversity(Some(x)) == FormatDiversity(Some(y))
    ensures x == y
  {
    hide ShowBool, ShowProviders, ShowEndpoints;
    SameHead("models=", ShowBool(x.models) + "," + ShowProviders(x), ShowBool(y.models) + "," + ShowProviders(y));
    BoolAndRest(x.models, ShowProviders(x), y.models, ShowProviders(y));
    SameProviders(x, y);
  }

  lemma SameProviders(x: Diversity, y: Diversity)
    requires ShowProviders(x) == ShowProviders(y)
    ensures x.providers == y.providers && x.endpoints == y.endpoints
  {
    hide ShowBool, ShowEndpoints;
    SameHead("providers=", ShowBool(x.providers) + "," + ShowEndpoints(x),
             ShowBool(y.providers) + "," + ShowEndpoints(y));
    BoolAndRest(x.providers, ShowEndpoints(x), y.providers, ShowEndpoints(y));
    SameEndpoints(x, y);
  }

  lemma SameEndpoints(x: Diversity, y: Diversity)
    requires ShowEndpoints(x) == ShowEndpoints(y)
    ensures x.endpoints == y.endpoints
  {
    SameHead("endpoints=", ShowBool(x.endpoints), ShowBool(y.endpoints));
    BoolAndRest(x.endpoints, "", y.endpoints, "");
  }

  lemma SameHead(head: string, a: string, b: string)
    requires head + a == head + b
    ensures a == b
  {
    assert a == (head + a)[|head|..] && b == (head + b)[|head|..];
  }

  /** An id that can stand in a comma-separated list. */
  predicate CleanId(id: string) {
    id != "" && ',' !in id
  }

  /** What stands between the commas. */
  function Pieces(s: string): (r: seq<string>)
    ensures |r| > 0
  {
    if s == "" then [""]
    else if s[0] == ',' then [""] + Pieces(s[1..])
    else
      var r := Pieces(s[1..]);
      [[s[0]] + r[0]] + r[1..]
  }

  /** The pieces a list of ids shows; no id at all shows one empty piece. */
  function Shown(ids: seq<string>): (r: seq<string>)
    ensures |r| > 0
  {
    if ids == [] then [""]
    else if |ids| == 1 then Pieces(ids[0])
    else Pieces(ids[0]) + Shown(ids[1..])
  }

  lemma {:induction false} PiecesOfBoth(x: string, y: string)
    ensures Pieces(x + "," + y) == Pieces(x) + Pieces(y)
  {
    hide Pieces, Prepended;
    if x == "" {
      PiecesOfNothing();
      PiecesStep("," + y);
      CommaPrepended(Pieces(y));
      assert ("," + y)[1..] == y;
      assert x + "," + y == "," + y;
    } else {
      PiecesOfBoth(x[1..], y);
      PiecesStep(x);
      PiecesStep(x + "," + y);
      assert (x + "," + y)[1..] == x[1..] + "," + y;
      FirstOfBoth(x[0], Pieces(x[1..]), Pieces(y));
    }
  }

  /** One more character before the pieces. */
  function Prepended(c: char, r: seq<string>): seq<string>
    requires |r| > 0
  {
    if c == ',' then [""] + r else [[c] + r[0]] + r[1..]
  }

  lemma PiecesOfNothing()
    ensures Pieces("") == [""]
  {
  }

  lemma CommaPrepended(r: seq<string>)
    requires |r| > 0
    ensures Prepended(',', r) == [""] + r
  {
  }

  lemma PiecesStep(s: string)
    requires s != ""
    ensures Pieces(s) == Prepended(s[0], Pieces(s[1..]))
  {
  }

  lemma FirstOfBoth(c: char, r: seq<string>, t: seq<string>)
    requires |r| > 0
    ensures Prepended(c, r + t) == Prepended(c, r) + t
  {
  }

  lemma {:induction false} PiecesOfJoined(ids: seq<string>)
    ensures Pieces(Joined(ids, ",")) == Shown(ids)
  {
    if |ids| > 1 {
      PiecesOfJoined(ids[1..]);
      PiecesOfBoth(ids[0], Joined(ids[1..], ","));
    }
  }

  lemma {:induction false} JoinedPieces(s: string)
    ensures Joined(Pieces(s), ",") == s
  {
    if s != "" {
      var r := Pieces(s[1..]);
      JoinedPieces(s[1..]);
      if s[0] == ',' {
        assert ([""] + r)[1..] == r;
      } else if |r| > 1 {
        assert ([[s[0]] + r[0]] + r[1..])[1..] == r[1..];
      }
    }
  }

  /** Two exclusion lists are rendered alike exactly when they show the same pieces. */
  lemma RenderedAlikeIff(a: seq<string>, b: seq<string>)
    ensures Joined(a, ",") == Joined(b, ",") <==> Shown(a) == Shown(b)
  {
    PiecesOfJoined(a);
    PiecesOfJoined(b);
    JoinedPieces(Joined(a, ","));
    JoinedPieces(Joined(b, ","));
  }

  lemma {:induction false} CleanIsOnePiece(id: string)
    requires ',' !in id
    ensures Pieces(id) == [id]
  {
    if id != "" {
      CleanIsOnePiece(id[1..]);
      assert [id[0]] + id[1..] == id;
    }
  }

  lemma {:induction false} CleanShowThemselves(ids: seq<string>)
    requires forall x :: x in ids ==> CleanId(x)
    ensures Shown(ids) == if ids == [] then [""] else ids
  {
    if ids != [] {
      assert CleanId(ids[0]);
      CleanIsOnePiece(ids[0]);
      CleanShowThemselves(ids[1..]);
    }
  }

  lemma ExcludedShowDifferently(a: seq<string>, b: seq<string>)
    requires (forall x :: x in a ==> CleanId(x)) && (forall x :: x in b ==> CleanId(x))
    requires Joined(a, ",") == Joined(b, ",")
    ensures a == b
  {
    RenderedAlikeIff(a, b);
    CleanShowThemselves(a);
    CleanShowThemselves(b);
    assert !CleanId("");
  }

  /** An id that can stand in a rendered fallback. */
  predicate PlainId(id: string) {
    '/' !in id && ']' !in id
  }

  predicate PlainRoute(r: Route) {
    PlainId(r.endpoint) && PlainId(r.channel) && PlainId(r.pool) && PlainId(r.profile)
  }

  function Rest(r: Route, x: string): string {
    r.channel + ['/'] + (r.pool + ['/'] + (r.profile + [']'] + x))
  }

  lemma ShownThen(r: Route, x: string)
    ensures ShowRoute(r) + x == "[" + (r.endpoint + ['/'] + Rest(r, x))
  {
  }

  lemma RouteAndRest(r: Route, x: string, t: Route, y: string)
    requires PlainRoute(r) && PlainRoute(t) && ShowRoute(r) + x == ShowRoute(t) + y
    ensures r == t && x == y
  {
    hide ShowRoute;
    ShownThen(r, x);
    ShownThen(t, y);
    SameHead("[", r.endpoint + ['/'] + Rest(r, x), t.endpoint + ['/'] + Rest(t, y));
    UpToSeparator(r.endpoint, Rest(r, x), t.endpoint, Rest(t, y), '/');
    UpToSeparator(r.channel, r.pool + ['/'] + (r.profile + [']'] + x), t.channel,
                  t.pool + ['/'] + (t.profile + [']'] + y), '/');
    UpToSeparator(r.pool, r.profile + [']'] + x, t.pool, t.profile + [']'] + y, '/');
    UpToSeparator(r.profile, x, t.profile, y, ']');
  }

  function MoreFallbacks(rs: seq<Route>): string {
    if |rs| <= 1 then "" else ", " + FormatFallbacks(rs[1..])
  }

  lemma FormatStep(rs: seq<Route>)
    requires rs != []
    ensures FormatFallbacks(rs) == ShowRoute(rs[0]) + MoreFallbacks(rs)
  {
    var shown := seq(|rs|, i requires 0 <= i < |rs| => ShowRoute(rs[i]));
    assert shown[1..] == seq(|rs[1..]|, i requires 0 <= i < |rs[1..]| => ShowRoute(rs[1..][i]));
    if |rs| == 1 {
      assert ShowRoute(rs[0]) + "" == ShowRoute(rs[0]);
    } else {
      assert FormatFallbacks(rs) == ShowRoute(rs[0]) + ", " + FormatFallbacks(rs[1..]);
    }
  }

  lemma {:induction false} FallbacksShowDifferently(a: seq<Route>, b: seq<Route>)
    requires (forall r :: r in a ==> PlainRoute(r)) && (forall r :: r in b ==> PlainRoute(r))
    requires FormatFallbacks(a) == FormatFallbacks(b)
    ensures a == b
  {
    hide PlainRoute, ShowRoute, FormatFallbacks, MoreFallbacks;
    FormatsEmpty(a);
    FormatsEmpty(b);
    if a != [] && b != [] {
      FormatStep(a);
      FormatStep(b);
      RouteAndRest(a[0], MoreFallbacks(a), b[0], MoreFallbacks(b));
      MoreIsTheRest(a, b);
      FallbacksShowDifferently(a[1..], b[1..]);
      assert a == [a[0]] + a[1..] && b == [b[0]] + b[1..];
    }
  }

  lemma FormatsEmpty(rs: seq<Route>)
    ensures FormatFallbacks(rs) == "" <==> rs == []
  {
    if rs != [] {
      FormatStep(rs);
      ShownIsNotEmpty(rs[0]);
    }
  }

  lemma MoreIsTheRest(a: seq<Route>, b: seq<Route>)
    requires a != [] && b != [] && MoreFallbacks(a) == MoreFallbacks(b)
    ensures FormatFallbacks(a[1..]) == FormatFallbacks(b[1..])
  {
    hide FormatFallbacks;
    FormatsEmpty(a[1..]);
    FormatsEmpty(b[1..]);
    if |a| > 1 && |b| > 1 {
      SameHead(", ", FormatFallbacks(a[1..]), FormatFallbacks(b[1..]));
    }
  }

  lemma ShownIsNotEmpty(r: Route)
    ensures ShowRoute(r) != ""
  {
  }

  // ----- What an empty difference means ---------------------------------------------------------------

  /** What a role is bound to at a priority: the last binding of the list that says so. */
  function BoundTo(bs: seq<Binding>, role: string, priority: int): Option<(Route, seq<Route>)> {
    if bs == [] then None
    else
      var last := bs[|bs| - 1];
      if last.role == role && last.priority == priority then Some((last.primary, last.fallbacks))
      else BoundTo(bs[..|bs| - 1], role, priority)
  }

  function BindingView(b: (Route, seq<Route>)): seq<Value> {
    [Str(b.0.endpoint), Str(b.0.channel), Str(b.0.pool), Str(b.0.profile), Str(FormatFallbacks(b.1))]
  }

  /** Looking a binding up by its printed key finds what the list binds. */
  lemma {:induction false} IndexFinds(bs: seq<Binding>, role: string, priority: int)
    ensures
      var k, v := BindingKey(role, priority), Index(BindingItems(bs));
      if k in v then BoundTo(bs, role, priority).Some? && v[k] == BindingView(BoundTo(bs, role, priority).value)
      else BoundTo(bs, role, priority).None?
  {
    hide BindingKey, FormatFallbacks;
    if bs != [] {
      var n := |bs| - 1;
      IndexFinds(bs[..n], role, priority);
      assert BindingItems(bs)[..n] == BindingItems(bs[..n]);
      if BindingKey(bs[n].role, bs[n].priority) == BindingKey(role, priority) {
        KeyIsInjective(bs[n].role, bs[n].priority, role, priority);
      }
    }
  }

  lemma {:induction false} KeysAreBindings(bs: seq<Binding>, k: string) returns (b: Option<Binding>)
    ensures k in Index(BindingItems(bs)) ==> b.Some? && BindingKey(b.value.role, b.value.priority) == k
  {
    hide BindingKey, FormatFallbacks;
    b := None;
    if bs != [] {
      var n := |bs| - 1;
      assert BindingItems(bs)[..n] == BindingItems(bs[..n]);
      if BindingKey(bs[n].role, bs[n].priority) == k {
        b := Some(bs[n]);
      } else {
        b := KeysAreBindings(bs[..n], k);
      }
    }
  }

  ghost predicate PlainBindings(bs: seq<Binding>) {
    forall b, r :: b in bs && r in b.fallbacks ==> PlainRoute(r)
  }

  lemma {:induction false} BoundIsPlain(bs: seq<Binding>, role: string, priority: int)
    requires PlainBindings(bs) && BoundTo(bs, role, priority).Some?
    ensures forall r :: r in BoundTo(bs, role, priority).value.1 ==> PlainRoute(r)
  {
    hide PlainRoute;
    var last := bs[|bs| - 1];
    assert last in bs;
    if !(last.role == role && last.priority == priority) {
      BoundIsPlain(bs[..|bs| - 1], role, priority);
    }
  }

  ghost predicate SameBindings(a: seq<Binding>, b: seq<Binding>) {
    forall role: string, priority: int :: BoundTo(a, role, priority) == BoundTo(b, role, priority)
  }

  lemma BindingsAgreeIff(a: seq<Binding>, b: seq<Binding>)
    requires PlainBindings(a) && PlainBindings(b)
    ensures Index(BindingItems(a)) == Index(BindingItems(b)) <==> SameBindings(a, b)
  {
    hide Index, SameBindings;
    if Index(BindingItems(a)) == Index(BindingItems(b)) {
      SameIndexBindsTheSame(a, b);
    }
    if SameBindings(a, b) {
      SameBindingsIndexTheSame(a, b);
    }
  }

  lemma SameIndexBindsTheSame(a: seq<Binding>, b: seq<Binding>)
    requires PlainBindings(a) && PlainBindings(b) && Index(BindingItems(a)) == Index(BindingItems(b))
    ensures SameBindings(a, b)
  {
    hide Index, BoundTo, BindingKey, PlainBindings, FormatFallbacks, PlainRoute;
    forall role: string, priority: int ensures BoundTo(a, role, priority) == BoundTo(b, role, priority) {
      IndexFinds(a, role, priority);
      IndexFinds(b, role, priority);
      SameBound(a, b, role, priority);
    }
  }

  lemma SameBindingsIndexTheSame(a: seq<Binding>, b: seq<Binding>)
    requires SameBindings(a, b)
    ensures Index(BindingItems(a)) == Index(BindingItems(b))
  {
    hide Index, SameBindings;
    var v, w := Index(BindingItems(a)), Index(BindingItems(b));
    assert SameBindings(b, a) by {
      SameBothWays(a, b);
    }
    forall k: string ensures (k in v <==> k in w) && (k in v ==> v[k] == w[k]) {
      SameEntry(a, b, k);
      SameEntry(b, a, k);
    }
    assert v.Keys == w.Keys;
    assert v == w;
  }

  lemma SameBothWays(a: seq<Binding>, b: seq<Binding>)
    requires SameBindings(a, b)
    ensures SameBindings(b, a)
  {
    hide BoundTo;
    forall role: string, priority: int ensures BoundTo(b, role, priority) == BoundTo(a, role, priority) {
      assert BoundTo(a, role, priority) == BoundTo(b, role, priority);
    }
  }

  lemma SameEntry(a: seq<Binding>, b: seq<Binding>, k: string)
    requires SameBindings(a, b)
    ensures
      var v, w := Index(BindingItems(a)), Index(BindingItems(b));
      k in v ==> k in w && v[k] == w[k]
  {
    hide Index, BoundTo, BindingKey, FormatFallbacks;
    var x := KeysAreBindings(a, k);
    if x.Some? {
      var role, priority := x.value.role, x.value.priority;
      IndexFinds(a, role, priority);
      IndexFinds(b, role, priority);
      assert BoundTo(a, role, priority) == BoundTo(b, role, priority);
    }
  }

  lemma SameBound(a: seq<Binding>, b: seq<Binding>, role: string, priority: int)
    requires PlainBindings(a) && PlainBindings(b)
    requires BoundTo(a, role, priority).Some? <==> BoundTo(b, role, priority).Some?
    requires BoundTo(a, role, priority).Some? ==>
      BindingView(BoundTo(a, role, priority).value) == BindingView(BoundTo(b, role, priority).value)
    ensures BoundTo(a, role, priority) == BoundTo(b, role, priority)
  {
    hide BoundTo, PlainBindings, FormatFallbacks, PlainRoute;
    if BoundTo(a, role, priority).Some? {
      var x, y := BoundTo(a, role, priority).value, BoundTo(b, role, priority).value;
      BoundIsPlain(a, role, priority);
      BoundIsPlain(b, role, priority);
      assert BindingView(x)[4] == Str(FormatFallbacks(x.1)) && BindingView(y)[4] == Str(FormatFallbacks(y.1));
      assert BindingView(x)[0] == Str(x.0.endpoint) && BindingView(x)[1] == Str(x.0.channel);
      assert BindingView(x)[2] == Str(x.0.pool) && BindingView(x)[3] == Str(x.0.profile);
      FallbacksShowDifferently(x.1, y.1);
    }
  }

  /** Two portfolios agree on everything that is compared. */
  ghost predicate SameFacts(a: Portfolio, b: Portfolio) {
    && Index(Channels(a)) == Index(Channels(b))
    && SameBindings(a.bindings, b.bindings)
    && Index(Pools(a)) == Index(Pools(b))
    && a.maxExposure == b.maxExposure && a.excluded == b.excluded && a.diversity == b.diversity
    && a.defaults == b.defaults
  }

  ghost predicate Unambiguous(p: Portfolio) {
    PlainBindings(p.bindings) && forall x :: x in p.excluded ==> CleanId(x)
  }

  lemma PoliciesAgreeIff(base: Portfolio, cand: Portfolio)
    ensures DiffPolicies(base, cand) == [] <==>
      base.maxExposure == cand.maxExposure && Joined(base.excluded, ",") == Joined(cand.excluded, ",")
      && FormatDiversity(base.diversity) == FormatDiversity(cand.diversity)
      && FormatDefaults(base.defaults) == FormatDefaults(cand.defaults)
  {
    hide Joined, FormatDiversity, FormatDefaults;
    var ds := DiffPolicies(base, cand);
    var one := Changed("max_source_exposure", base.maxExposure, cand.maxExposure);
    var two := Changed("excluded_endpoint_ids", Joined(base.excluded, ","), Joined(cand.excluded, ","));
    var three := Changed("diversity_requirements", FormatDiversity(base.diversity), FormatDiversity(cand.diversity));
    var four := Changed("workflow_defaults", FormatDefaults(base.defaults), FormatDefaults(cand.defaults));
    assert |ds| == |one| + |two| + |three| + |four|;
  }

  /** With ids free of the rendering's delimiters, nothing is reported exactly when nothing
      that is compared has changed. */
  lemma NoChangesIffSameFacts(base: Portfolio, cand: Portfolio, d: PortfolioDiff)
    requires Unambiguous(base) && Unambiguous(cand) && Describes(base, cand, d)
    ensures !d.hasChanges <==> SameFacts(base, cand)
  {
    hide Describes, Index, SameBindings, DiffPolicies, Joined, FormatDiversity, FormatDefaults, PlainBindings, CleanId;
    hide Channels, Pools;
    NoChangesIffViewsAgree(base, cand, d);
    PoliciesAgreeIff(base, cand);
    BindingsAgreeIff(base.bindings, cand.bindings);
    if Joined(base.excluded, ",") == Joined(cand.excluded, ",") {
      ExcludedShowDifferently(base.excluded, cand.excluded);
    }
    if FormatDiversity(base.diversity) == FormatDiversity(cand.diversity) {
      DiversityShowsDifferently(base.diversity, cand.diversity);
    }
    if FormatDefaults(base.defaults) == FormatDefaults(cand.defaults) {
      DefaultsShowDifferently(base.defaults, cand.defaults);
    }
  }

  /** When only the exclusions change, nothing is reported exactly when both lists show the
      same pieces between their commas. */
  lemma ExclusionsHiddenIff(p: Portfolio, a: seq<string>, b: seq<string>, d: PortfolioDiff)
    requires Describes(p.(excluded := a), p.(excluded := b), d)
    ensures !d.hasChanges <==> Shown(a) == Shown(b)
  {
    hide Describes, Index, DiffPolicies, Joined, Shown, FormatDiversity, FormatDefaults;
    var base, cand := p.(excluded := a), p.(excluded := b);
    NoChangesIffViewsAgree(base, cand, d);
    PoliciesAgreeIff(base, cand);
    RenderedAlikeIff(a, b);
    assert Channels(base) == Channels(cand) && Pools(base) == Pools(cand);
  }

  /** Excluding one endpoint whose id has a comma shows as excluding two. */
  lemma CommaHidesAChange(p: Portfolio, u: string, v: string, d: PortfolioDiff)
    requires Describes(p.(excluded := [u + "," + v]), p.(excluded := [u, v]), d)
    ensures !d.hasChanges && !SameFacts(p.(excluded := [u + "," + v]), p.(excluded := [u, v]))
  {
    hide Describes, Index;
    ExclusionsHiddenIff(p, [u + "," + v], [u, v], d);
    PiecesOfBoth(u, v);
    assert [u, v][1..] == [v];
    assert |[u + "," + v]| == 1 && |[u, v]| == 2;
  }

  /** Letting a pool overdraw, or fall back to a metered one, is not a change the diff can show. */
  lemma AuthorityFlagsAreNotCompared(base: Portfolio, cand: Portfolio, i: nat, overage: bool, metered: bool,
                                     d: PortfolioDiff)
    requires i < |base.pools| && Describes(base, cand, d)
    requires cand == base.(pools := base.pools[i := base.pools[i].(allowOverage := overage,
                                                                   fallbackToMetered := metered)])
    ensures !d.hasChanges
  {
    hide Describes, Index;
    NoChangesIffViewsAgree(base, cand, d);
    assert Pools(base) == Pools(cand);
    assert Channels(base) == Channels(cand);
  }
}

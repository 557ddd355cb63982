/** From a handler registered on the bus to the events it is called with: grouping,
    filter compilation, subscription, delivery, re-check and dispatch, end to end.
    Events decode, and their payload identity equals their subject. */
module BusDispatch {
  import opened Subjects
  import opened Compaction
  import opened Filters
  import opened NatsFilters

  /** One `HandleEvent` or `HandleQueueEvent` call. The kind is never empty: it defaults
      to `event`. An empty name means any name, an empty id list any id. */
  datatype Registration = Registration(
    queued: bool, scope: string, agg: string, kind: string, name: string, ids: seq<string>)

  /** The event is for this registration: the promise made to its author. */
  predicate Wants(r: Registration, s: Subject) {
    && r.scope == s.scope && r.agg == s.aggregateType && r.kind == s.kind
    && (r.name == "" || r.name == s.name)
    && AnyOrIn(r.ids, s.aggregateId)
  }

  /** A handler inside a group; `reg` identifies the callback by its registration. */
  datatype Handler = Handler(reg: nat, kind: string, name: string, ids: seq<string>)

  datatype EventGroup = EventGroup(scope: string, kind: string, agg: string, handlers: map<nat, Handler>)

  datatype OrderedKey = OrderedKey(scope: string, kind: string, agg: string)
  datatype QueueKey = QueueKey(scope: string, agg: string, queue: string)

  // --------------------------------------------------------------- compilation

  ghost function SpecsOf(h: Handler): set<FilterSpec> {
    if h.ids == [] then {FilterSpec(h.kind, "", h.name)}
    else set id | id in h.ids :: FilterSpec(h.kind, id, h.name)
  }

  ghost function GroupSpecs(handlers: map<nat, Handler>, keys: set<nat>): set<FilterSpec>
    requires keys <= handlers.Keys
  {
    set k, sp | k in keys && sp in SpecsOf(handlers[k]) :: sp
  }

  function ToFilter(spec: FilterSpec): SubscriptionFilter {
    SubscriptionFilter(spec.kind, if spec.id != "" then [spec.id] else [], if spec.name != "" then [spec.name] else [])
  }

  ghost predicate CompiledTo(g: EventGroup, specs: seq<FilterSpec>, filters: seq<SubscriptionFilter>) {
    && IsCompaction(SpecCovers, SpecLess, GroupSpecs(g.handlers, g.handlers.Keys), specs)
    && filters == seq(|specs|, i requires 0 <= i < |specs| => ToFilter(specs[i]))
  }

  method HandlerSpecs(h: Handler) returns (specs: seq<FilterSpec>)
    ensures Elements(specs) == SpecsOf(h)
  {
    if h.ids == [] {
      return [FilterSpec(h.kind, "", h.name)];
    }
    specs := [];
    for i := 0 to |h.ids|
      invariant Elements(specs) == set id | id in h.ids[..i] :: FilterSpec(h.kind, id, h.name)
    {
      assert h.ids[..i + 1] == h.ids[..i] + [h.ids[i]];
      var spec := FilterSpec(h.kind, h.ids[i], h.name);
      assert Elements(specs + [spec]) == Elements(specs) + {spec};
      specs := specs + [spec];
    }
    assert h.ids[..|h.ids|] == h.ids;
  }

  /** `groupEventFilters`: visits the handlers in any order (Go map iteration), with a
      result that does not depend on it. */
  method GroupEventFilters(g: EventGroup) returns (filters: seq<SubscriptionFilter>)
    ensures exists specs :: CompiledTo(g, specs, filters)
  {
    var todo, all := g.handlers.Keys, [];
    while todo != {}
      invariant todo <= g.handlers.Keys
      invariant Elements(all) == GroupSpecs(g.handlers, g.handlers.Keys - todo)
      decreases todo
    {
      var k :| k in todo;
      var more := HandlerSpecs(g.handlers[k]);
      assert Elements(all + more) == Elements(all) + Elements(more);
      assert g.handlers.Keys - (todo - {k}) == (g.handlers.Keys - todo) + {k};
      all, todo := all + more, todo - {k};
    }
    assert g.handlers.Keys - todo == g.handlers.Keys;
    var compacted := CompactEventFilterSpecs(all);
    filters := seq(|compacted|, i requires 0 <= i < |compacted| => ToFilter(compacted[i]));
    assert CompiledTo(g, compacted, filters);
  }

  function GroupConfig(g: EventGroup, filters: seq<SubscriptionFilter>): Config {
    Config(g.scope, "", [g.agg], [], [], filters)
  }

  /** The subscription of a group: its config and the patterns the server filters by. */
  ghost predicate Subscribes(g: EventGroup, queued: bool, c: Config, patterns: seq<string>) {
    && |c.types| == 1
    && (exists specs :: CompiledTo(g, specs, c.filters) && c == GroupConfig(g, c.filters))
    && (exists raw, compacted :: CompiledPatterns(c, queued, patterns, raw, compacted))
  }

  ghost predicate CompiledPatterns(c: Config, queued: bool, patterns: seq<string>, raw: set<string>,
      compacted: seq<string>)
    requires |c.types| == 1
  {
    && (forall p :: p in raw <==> RawPattern(c, p))
    && IsCompaction(PatternCovers, StringLess, raw, compacted)
    && (patterns == compacted || (queued && Collapsed(c, patterns)))
  }

  /** The compiling part of `startOrderedGroup` and `startQueueGroup`, down to the consumer
      configuration; an invalid config is refused. */
  method StartGroup(g: EventGroup, queued: bool) returns (ok: bool, c: Config, patterns: seq<string>)
    ensures c == GroupConfig(g, c.filters) && exists specs :: CompiledTo(g, specs, c.filters)
    ensures ok <==> Subscribable(c)
    ensures ok ==> Subscribes(g, queued, c, patterns)
    ensures ok <==> StartsWell(g)
  {
    var filters := GroupEventFilters(g);
    ghost var specs :| CompiledTo(g, specs, filters);
    c := GroupConfig(g, filters);
    SubscribableIff(g, specs, c);
    if !Subscribable(c) {
      return false, c, [];
    }
    if queued {
      patterns := QueueConsumerFilters(c);
      ghost var raw, compacted :| QueueCompiled(c, raw, compacted, patterns);
      assert CompiledPatterns(c, queued, patterns, raw, compacted);
    } else {
      patterns := EventFilters(c);
      ghost var raw :| CompactedFrom(c, raw, patterns);
      assert CompiledPatterns(c, queued, patterns, raw, patterns);
    }
    ok := true;
    assert CompiledTo(g, specs, c.filters);
  }

  /** The scope, the type and the specs that are left after compaction are valid: what the
      subscriber's own validation comes down to. */
  ghost predicate StartsWell(g: EventGroup) {
    && ValidToken(g.scope) && ValidToken(g.agg)
    && forall sp | Maximal(SpecCovers, GroupSpecs(g.handlers, g.handlers.Keys), sp) :: ValidFilter(ToFilter(sp))
  }

  lemma SubscribableIff(g: EventGroup, specs: seq<FilterSpec>, c: Config)
    requires CompiledTo(g, specs, c.filters) && c == GroupConfig(g, c.filters)
    ensures Subscribable(c) <==> StartsWell(g)
  {
    if StartsWell(g) {
      forall i | 0 <= i < |c.filters| ensures ValidFilter(c.filters[i]) {
        assert specs[i] in specs;
      }
    }
    if Subscribable(c) {
      assert ValidToken(c.types[0]);
      forall sp | Maximal(SpecCovers, GroupSpecs(g.handlers, g.handlers.Keys), sp) ensures ValidFilter(ToFilter(sp)) {
        var i :| 0 <= i < |specs| && specs[i] == sp;
        assert ValidFilter(c.filters[i]);
      }
    }
  }

  // ------------------------------------------------------------------ dispatch

  predicate DispatchTest(h: Handler, s: Subject) {
    && (h.kind == "" || h.kind == s.kind)
    && (h.name == "" || h.name == s.name)
    && AnyOrIn(h.ids, s.aggregateId)
  }

  /** `dispatchEventGroup`: calls every handler of the group the event passes the tests of,
      whether or not others fail, and reports an error if one of them did. */
  method DispatchEventGroup(g: EventGroup, s: Subject, fails: nat -> bool) returns (called: set<nat>, failed: bool)
    ensures called == set k | k in g.handlers && DispatchTest(g.handlers[k], s)
    ensures failed <==> exists k :: k in called && fails(k)
  {
    called, failed := {}, false;
    var todo := g.handlers.Keys;
    while todo != {}
      invariant todo <= g.handlers.Keys
      invariant called == set k | k in g.handlers.Keys - todo && DispatchTest(g.handlers[k], s)
      invariant failed <==> exists k :: k in called && fails(k)
      decreases todo
    {
      var k :| k in todo;
      todo := todo - {k};
      if !DispatchTest(g.handlers[k], s) {
        continue;
      }
      called := called + {k};
      if fails(k) {
        failed := true;
      }
    }
  }

  // ---------------------------------------------------------------- one group

  lemma FilterOfSpec(spec: FilterSpec, s: Subject)
    requires spec.kind != ""
    ensures FilterAccepts(ToFilter(spec), s) <==> SpecAccepts(spec, s)
  {
  }

  /** What one handler wants, the group's subscription lets through. */
  lemma GroupLosesNothing(g: EventGroup, specs: seq<FilterSpec>, c: Config, k: nat, s: Subject)
    requires CompiledTo(g, specs, c.filters) && k in g.handlers
    requires g.handlers[k].kind != "" && g.handlers[k].kind == s.kind && DispatchTest(g.handlers[k], s)
    ensures SomeFilterAccepts(c.filters, s)
  {
    var h := g.handlers[k];
    var all := GroupSpecs(g.handlers, g.handlers.Keys);
    var own := FilterSpec(h.kind, if h.ids == [] then "" else s.aggregateId, h.name);
    assert own in SpecsOf(h);
    assert own in all && SpecAccepts(own, s);
    SpecCompactionExact(all, specs, s);
    var spec :| spec in specs && SpecAccepts(spec, s);
    var i :| 0 <= i < |specs| && specs[i] == spec;
    FilterOfSpec(spec, s);
    assert c.filters[i] == ToFilter(spec) && c.filters[i] in c.filters;
  }

  /** A group's subscription handles what its handlers want, in its scope and type. */
  lemma GroupHandles(g: EventGroup, queued: bool, c: Config, patterns: seq<string>, s: Subject)
    requires Subscribes(g, queued, c, patterns) && Subscribable(c) && s.Valid()
    ensures Handled(c, patterns, s) <==> ConfigAccepts(c, s)
  {
    var raw, compacted :| CompiledPatterns(c, queued, patterns, raw, compacted);
    QueueAgreesWithReference(c, raw, compacted, patterns, s);
  }

  /** MAIN RESULT: a handler of a subscribed group is called with an event exactly when
      the event is in the group's scope and type and has the handler's kind, its name if it
      names one, and one of its ids if it lists any. */
  lemma GroupDispatchIsExact(g: EventGroup, queued: bool, c: Config, patterns: seq<string>, k: nat, s: Subject)
    requires Subscribes(g, queued, c, patterns) && Subscribable(c) && s.Valid()
    requires k in g.handlers && g.handlers[k].kind != ""
    ensures
      var h := g.handlers[k];
      Handled(c, patterns, s) && DispatchTest(h, s) <==>
      Wants(Registration(queued, g.scope, g.agg, h.kind, h.name, h.ids), s)
  {
    var h := g.handlers[k];
    GroupHandles(g, queued, c, patterns, s);
    var specs :| CompiledTo(g, specs, c.filters) && c == GroupConfig(g, c.filters);
    assert AnyOrIn(c.types, s.aggregateType) <==> g.agg == s.aggregateType;
    if h.kind == s.kind && DispatchTest(h, s) {
      GroupLosesNothing(g, specs, c, k, s);
    }
    if c.filters == [] {
      assert SpecsOf(h) <= GroupSpecs(g.handlers, g.handlers.Keys);
      NonEmptyCompaction(g, specs, k);
    }
  }

  /** A group with a handler has at least one filter. */
  lemma NonEmptyCompaction(g: EventGroup, specs: seq<FilterSpec>, k: nat)
    requires CompiledTo(g, specs, seq(|specs|, i requires 0 <= i < |specs| => ToFilter(specs[i]))) && k in g.handlers
    ensures specs != []
  {
    var h := g.handlers[k];
    var own := if h.ids == [] then FilterSpec(h.kind, "", h.name) else FilterSpec(h.kind, h.ids[0], h.name);
    assert own in SpecsOf(h) && own in GroupSpecs(g.handlers, g.handlers.Keys);
    SpecOrder();
    var m := KeptCoverer(SpecCovers, GroupSpecs(g.handlers, g.handlers.Keys), own);
    assert m in specs;
  }

  /** An accepting filter comes from a handler that asks for that kind and name. */
  lemma AcceptingFilterHasHandler(g: EventGroup, specs: seq<FilterSpec>, c: Config, s: Subject) returns (k: nat)
    requires CompiledTo(g, specs, c.filters) && SomeFilterAccepts(c.filters, s)
    requires forall k | k in g.handlers :: g.handlers[k].kind != ""
    ensures k in g.handlers && g.handlers[k].kind == s.kind
        && (g.handlers[k].name == "" || g.handlers[k].name == s.name)
  {
    var f :| f in c.filters && FilterAccepts(f, s);
    var i :| 0 <= i < |c.filters| && c.filters[i] == f;
    assert specs[i] in specs;
    assert Maximal(SpecCovers, GroupSpecs(g.handlers, g.handlers.Keys), specs[i]);
    k :| k in g.handlers && specs[i] in SpecsOf(g.handlers[k]);
    FilterOfSpec(specs[i], s);
    hide IsCompaction, FilterAccepts, SomeFilterAccepts;
  }

  /** An event that passes the patterns and the re-check is in the group's scope and type,
      and some handler of the group asks for its kind and name. */
  lemma HandledHasHandler(g: EventGroup, queued: bool, c: Config, patterns: seq<string>, s: Subject) returns (k: nat)
    requires Subscribes(g, queued, c, patterns) && Subscribable(c) && s.Valid() && Handled(c, patterns, s)
    requires g.handlers.Keys != {}
    requires forall k | k in g.handlers :: g.handlers[k].kind != ""
    ensures g.scope == s.scope && g.agg == s.aggregateType
    ensures k in g.handlers && g.handlers[k].kind == s.kind
        && (g.handlers[k].name == "" || g.handlers[k].name == s.name)
  {
    GroupHandles(g, queued, c, patterns, s);
    var specs :| CompiledTo(g, specs, c.filters) && c == GroupConfig(g, c.filters);
    var k0 :| k0 in g.handlers.Keys;
    NonEmptyCompaction(g, specs, k0);
    k := AcceptingFilterHasHandler(g, specs, c, s);
  }

  // ------------------------------------------------------------------ the bus

  /** The groups a bus has built from its registrations, in order. */
  datatype Groups = Groups(ordered: map<OrderedKey, EventGroup>, queues: map<QueueKey, EventGroup>)

  ghost predicate HandlerFaithful(regs: seq<Registration>, g: EventGroup, queued: bool, k: nat)
    requires k in g.handlers
  {
    var h := g.handlers[k];
    && h.reg < |regs| && regs[h.reg] == Registration(queued, g.scope, g.agg, h.kind, h.name, h.ids)
    && (!queued ==> h.kind == g.kind)
  }

  ghost predicate OneHandlerEach(g: EventGroup) {
    forall j, k | j in g.handlers && k in g.handlers && g.handlers[j].reg == g.handlers[k].reg :: j == k
  }

  ghost predicate GroupFaithful(regs: seq<Registration>, g: EventGroup, queued: bool) {
    && (forall k | k in g.handlers :: k <= |g.handlers|)
    && (forall k | k in g.handlers :: HandlerFaithful(regs, g, queued, k))
    && OneHandlerEach(g)
  }

  ghost predicate HasHandler(g: EventGroup, r: nat) {
    exists k :: k in g.handlers && g.handlers[k].reg == r
  }

  ghost predicate OrderedFaithful(regs: seq<Registration>, ordered: map<OrderedKey, EventGroup>) {
    forall key | key in ordered ::
      && key == OrderedKey(ordered[key].scope, ordered[key].kind, ordered[key].agg)
      && ordered[key].handlers.Keys != {} && GroupFaithful(regs, ordered[key], false)
  }

  ghost predicate QueuesFaithful(regs: seq<Registration>, queue: string, queues: map<QueueKey, EventGroup>) {
    forall key | key in queues ::
      && key == QueueKey(queues[key].scope, queues[key].agg, queue)
      && queues[key].handlers.Keys != {} && GroupFaithful(regs, queues[key], true)
  }

  function OrderedKeyOf(r: Registration): OrderedKey {
    OrderedKey(r.scope, r.kind, r.agg)
  }

  function QueueKeyOf(r: Registration, queue: string): QueueKey {
    QueueKey(r.scope, r.agg, queue)
  }

  /** Registration `i` has its handler in its own group. */
  ghost predicate Placed(r: Registration, i: nat, queue: string, gs: Groups) {
    if r.queued then QueueKeyOf(r, queue) in gs.queues && HasHandler(gs.queues[QueueKeyOf(r, queue)], i)
    else OrderedKeyOf(r) in gs.ordered && HasHandler(gs.ordered[OrderedKeyOf(r)], i)
  }

  /** Every registration has its handler in its own group, and no group has others. */
  ghost predicate Faithful(regs: seq<Registration>, queue: string, gs: Groups) {
    && OrderedFaithful(regs, gs.ordered)
    && QueuesFaithful(regs, queue, gs.queues)
    && AllPlaced(regs, queue, gs)
  }

  function AddHandler(g: EventGroup, h: Handler): EventGroup {
    g.(handlers := g.handlers[|g.handlers| + 1 := h])
  }

  lemma AddHandlerKeeps(g: EventGroup, h: Handler, r: nat)
    requires |g.handlers| + 1 !in g.handlers
    ensures HasHandler(AddHandler(g, h), h.reg)
    ensures HasHandler(g, r) ==> HasHandler(AddHandler(g, h), r)
  {
    var g' := AddHandler(g, h);
    assert g'.handlers[|g.handlers| + 1].reg == h.reg;
    if HasHandler(g, r) {
      var k :| k in g.handlers && g.handlers[k].reg == r;
      assert g'.handlers[k].reg == r;
    }
  }

  lemma GroupFaithfulGrows(regs: seq<Registration>, r: Registration, g: EventGroup, queued: bool)
    requires GroupFaithful(regs, g, queued)
    ensures GroupFaithful(regs + [r], g, queued)
  {
    hide OneHandlerEach;
    forall k | k in g.handlers ensures HandlerFaithful(regs + [r], g, queued, k) {
      assert HandlerFaithful(regs, g, queued, k);
    }
  }

  lemma AddHandlerKeepsOne(g: EventGroup, h: Handler)
    requires OneHandlerEach(g) && forall k | k in g.handlers :: g.handlers[k].reg != h.reg
    ensures OneHandlerEach(AddHandler(g, h))
  {
  }

  lemma AddHandlerFaithful(regs: seq<Registration>, g: EventGroup, queued: bool, h: Handler)
    requires GroupFaithful(regs, g, queued)
    requires h.reg < |regs| && regs[h.reg] == Registration(queued, g.scope, g.agg, h.kind, h.name, h.ids)
    requires !queued ==> h.kind == g.kind
    requires forall k | k in g.handlers :: g.handlers[k].reg != h.reg
    ensures GroupFaithful(regs, AddHandler(g, h), queued)
  {
    AddHandlerKeepsOne(g, h);
    hide OneHandlerEach;
    var g', n := AddHandler(g, h), |g.handlers| + 1;
    assert n !in g.handlers;
    assert |g'.handlers| == n;
    forall k | k in g'.handlers ensures HandlerFaithful(regs, g', queued, k) {
      if k != n { assert HandlerFaithful(regs, g, queued, k); }
    }
  }

  lemma OrderedFaithfulGrows(regs: seq<Registration>, ordered: map<OrderedKey, EventGroup>, r: Registration)
    requires OrderedFaithful(regs, ordered)
    ensures OrderedFaithful(regs + [r], ordered)
  {
    forall key | key in ordered ensures GroupFaithful(regs + [r], ordered[key], false) {
      GroupFaithfulGrows(regs, r, ordered[key], false);
    }
  }

  lemma QueuesFaithfulGrows(regs: seq<Registration>, queue: string, queues: map<QueueKey, EventGroup>, r: Registration)
    requires QueuesFaithful(regs, queue, queues)
    ensures QueuesFaithful(regs + [r], queue, queues)
  {
    forall key | key in queues ensures GroupFaithful(regs + [r], queues[key], true) {
      GroupFaithfulGrows(regs, r, queues[key], true);
    }
  }

  function OrderedTarget(gs: Groups, r: Registration): EventGroup {
    if OrderedKeyOf(r) in gs.ordered then gs.ordered[OrderedKeyOf(r)] else EventGroup(r.scope, r.kind, r.agg, map[])
  }

  function QueueTarget(gs: Groups, r: Registration, queue: string): EventGroup {
    if QueueKeyOf(r, queue) in gs.queues then gs.queues[QueueKeyOf(r, queue)]
        else EventGroup(r.scope, r.kind, r.agg, map[])
  }

  function AddOrdered(gs: Groups, r: Registration, i: nat): Groups {
    var g := AddHandler(OrderedTarget(gs, r), Handler(i, r.kind, r.name, r.ids));
    gs.(ordered := gs.ordered[OrderedKeyOf(r) := g])
  }

  function AddQueued(gs: Groups, r: Registration, i: nat, queue: string): Groups {
    var g := AddHandler(QueueTarget(gs, r, queue), Handler(i, r.kind, r.name, r.ids));
    gs.(queues := gs.queues[QueueKeyOf(r, queue) := g])
  }

  /** Adding a handler places its registration and keeps every earlier placement. */
  lemma PlacedAfterOrdered(gs: Groups, r: Registration, n: nat, queue: string, q: Registration, i: nat)
    requires !r.queued
    requires var g := OrderedTarget(gs, r); |g.handlers| + 1 !in g.handlers
    ensures Placed(r, n, queue, AddOrdered(gs, r, n))
    ensures Placed(q, i, queue, gs) ==> Placed(q, i, queue, AddOrdered(gs, r, n))
  {
    AddHandlerKeeps(OrderedTarget(gs, r), Handler(n, r.kind, r.name, r.ids), i);
  }

  lemma PlacedAfterQueued(gs: Groups, r: Registration, n: nat, queue: string, q: Registration, i: nat)
    requires r.queued
    requires var g := QueueTarget(gs, r, queue); |g.handlers| + 1 !in g.handlers
    ensures Placed(r, n, queue, AddQueued(gs, r, n, queue))
    ensures Placed(q, i, queue, gs) ==> Placed(q, i, queue, AddQueued(gs, r, n, queue))
  {
    AddHandlerKeeps(QueueTarget(gs, r, queue), Handler(n, r.kind, r.name, r.ids), i);
  }

  lemma OrderedInsert(
      regs: seq<Registration>, ordered: map<OrderedKey, EventGroup>, key: OrderedKey, g: EventGroup)
    requires OrderedFaithful(regs, ordered) && GroupFaithful(regs, g, false)
    requires key == OrderedKey(g.scope, g.kind, g.agg) && g.handlers.Keys != {}
    ensures OrderedFaithful(regs, ordered[key := g])
  {
  }

  lemma QueuesInsert(
      regs: seq<Registration>, queue: string, queues: map<QueueKey, EventGroup>, key: QueueKey, g: EventGroup)
    requires QueuesFaithful(regs, queue, queues) && GroupFaithful(regs, g, true)
    requires key == QueueKey(g.scope, g.agg, queue) && g.handlers.Keys != {}
    ensures QueuesFaithful(regs, queue, queues[key := g])
  {
  }

  /** The group a new handler goes to, after the registration was recorded. */
  lemma TargetGroup(regs: seq<Registration>, g: EventGroup, queued: bool, r: Registration)
    requires GroupFaithful(regs, g, queued)
    requires r.queued == queued && r.scope == g.scope && r.agg == g.agg && (!queued ==> r.kind == g.kind)
    ensures |g.handlers| + 1 !in g.handlers
    ensures AddHandler(g, Handler(|regs|, r.kind, r.name, r.ids)).handlers.Keys != {}
    ensures GroupFaithful(regs + [r], AddHandler(g, Handler(|regs|, r.kind, r.name, r.ids)), queued)
  {
    GroupFaithfulGrows(regs, r, g, queued);
    forall k | k in g.handlers ensures g.handlers[k].reg < |regs| {
      assert HandlerFaithful(regs, g, queued, k);
    }
    assert |g.handlers| + 1 in AddHandler(g, Handler(|regs|, r.kind, r.name, r.ids)).handlers;
    AddHandlerFaithful(regs + [r], g, queued, Handler(|regs|, r.kind, r.name, r.ids));
  }

  ghost predicate AllPlaced(regs: seq<Registration>, queue: string, gs: Groups) {
    forall i | 0 <= i < |regs| :: regs[i].kind != "" && Placed(regs[i], i, queue, gs)
  }

  lemma AllPlacedGrows(regs: seq<Registration>, queue: string, gs: Groups, gs': Groups, r: Registration)
    requires AllPlaced(regs, queue, gs) && r.kind != "" && Placed(r, |regs|, queue, gs')
    requires forall i | 0 <= i < |regs| :: Placed(regs[i], i, queue, gs) ==> Placed(regs[i], i, queue, gs')
    ensures AllPlaced(regs + [r], queue, gs')
  {
  }

  lemma AddOrderedFaithful(regs: seq<Registration>, queue: string, gs: Groups, r: Registration)
    requires Faithful(regs, queue, gs) && !r.queued && r.kind != ""
    ensures Faithful(regs + [r], queue, AddOrdered(gs, r, |regs|))
  {
    var g := OrderedTarget(gs, r);
    TargetGroup(regs, g, false, r);
    OrderedFaithfulGrows(regs, gs.ordered, r);
    OrderedInsert(regs + [r], gs.ordered, OrderedKeyOf(r), AddHandler(g, Handler(|regs|, r.kind, r.name, r.ids)));
    QueuesFaithfulGrows(regs, queue, gs.queues, r);
    PlacedAfterOrdered(gs, r, |regs|, queue, r, |regs|);
    forall i | 0 <= i < |regs|
      ensures Placed(regs[i], i, queue, gs) ==> Placed(regs[i], i, queue, AddOrdered(gs, r, |regs|))
    {
      PlacedAfterOrdered(gs, r, |regs|, queue, regs[i], i);
    }
    AllPlacedGrows(regs, queue, gs, AddOrdered(gs, r, |regs|), r);
  }

  lemma AddQueuedFaithful(regs: seq<Registration>, queue: string, gs: Groups, r: Registration)
    requires Faithful(regs, queue, gs) && r.queued && r.kind != ""
    ensures Faithful(regs + [r], queue, AddQueued(gs, r, |regs|, queue))
  {
    var g := QueueTarget(gs, r, queue);
    TargetGroup(regs, g, true, r);
    OrderedFaithfulGrows(regs, gs.ordered, r);
    QueuesFaithfulGrows(regs, queue, gs.queues, r);
    QueuesInsert(regs + [r], queue, gs.queues, QueueKeyOf(r, queue),
        AddHandler(g, Handler(|regs|, r.kind, r.name, r.ids)));
    PlacedAfterQueued(gs, r, |regs|, queue, r, |regs|);
    forall i | 0 <= i < |regs|
      ensures Placed(regs[i], i, queue, gs) ==> Placed(regs[i], i, queue, AddQueued(gs, r, |regs|, queue))
    {
      PlacedAfterQueued(gs, r, |regs|, queue, regs[i], i);
    }
    AllPlacedGrows(regs, queue, gs, AddQueued(gs, r, |regs|, queue), r);
  }

  class Bus {
    const queue: string
    var running: bool
    var closed: bool
    var groups: Groups
    ghost var regs: seq<Registration>

    ghost predicate Valid()
      reads this
    {
      Faithful(regs, queue, groups)
    }

    constructor (queue: string)
      ensures Valid() && regs == [] && this.queue == queue && !running && !closed
    {
      this.queue := queue;
      running, closed := false, false;
      groups := Groups(map[], map[]);
      regs := [];
    }

    /** `addOrderedHandler`; `callback` names the registration. A connected or closed bus
        panics, here `ok` is false. */
    method AddOrderedHandler(kind: string, scope: string, agg: string, name: string, ids: seq<string>, callback: nat)
      returns (ok: bool)
      requires Valid() && kind != "" && callback == |regs|
      modifies this`groups, this`regs
      ensures Valid() && ok == (!running && !closed)
      ensures regs == if ok then old(regs) + [Registration(false, scope, agg, kind, name, ids)] else old(regs)
      ensures groups ==
              if ok then AddOrdered(old(groups), Registration(false, scope, agg, kind, name, ids), callback)
                  else old(groups)
    {
      hide Faithful;
      if closed || running {
        return false;
      }
      ghost var r := Registration(false, scope, agg, kind, name, ids);
      AddOrderedFaithful(regs, queue, groups, r);
      var key := OrderedKey(scope, kind, agg);
      var group := if key in groups.ordered then groups.ordered[key] else EventGroup(scope, kind, agg, map[]);
      var handlers := group.handlers[|group.handlers| + 1 := Handler(callback, kind, name, ids)];
      groups := groups.(ordered := groups.ordered[key := group.(handlers := handlers)]);
      regs := regs + [r];
      ok := true;
    }

    /** `addQueueHandler`; a bus without a queue panics as well. */
    method AddQueueHandler(kind: string, scope: string, agg: string, name: string, ids: seq<string>, callback: nat)
      returns (ok: bool)
      requires Valid() && kind != "" && callback == |regs|
      modifies this`groups, this`regs
      ensures Valid() && ok == (queue != "" && !running && !closed)
      ensures regs == if ok then old(regs) + [Registration(true, scope, agg, kind, name, ids)] else old(regs)
      ensures groups ==
              if ok then AddQueued(old(groups), Registration(true, scope, agg, kind, name, ids), callback, queue)
                  else old(groups)
    {
      hide Faithful;
      if queue == "" {
        return false;
      }
      if closed || running {
        return false;
      }
      ghost var r := Registration(true, scope, agg, kind, name, ids);
      AddQueuedFaithful(regs, queue, groups, r);
      var key := QueueKey(scope, agg, queue);
      var group := if key in groups.queues then groups.queues[key] else EventGroup(scope, kind, agg, map[]);
      var handlers := group.handlers[|group.handlers| + 1 := Handler(callback, kind, name, ids)];
      groups := groups.(queues := groups.queues[key := group.(handlers := handlers)]);
      regs := regs + [r];
      ok := true;
    }
  }

  /** Callback `r` is reached through a group that is served by a consumer of its own. */
  ghost predicate ReachedIn(g: EventGroup, queued: bool, r: nat, s: Subject) {
    exists c, patterns, k ::
      && Subscribes(g, queued, c, patterns) && Subscribable(c) && Handled(c, patterns, s)
      && k in g.handlers && g.handlers[k].reg == r && DispatchTest(g.handlers[k], s)
  }

  /** The group's subscription gets past the config validation. */
  ghost predicate GroupStarts(g: EventGroup, queued: bool) {
    exists c, patterns :: Subscribes(g, queued, c, patterns) && Subscribable(c)
  }

  lemma ReachedIsWanted(regs: seq<Registration>, g: EventGroup, queued: bool, r: nat, s: Subject)
    requires GroupFaithful(regs, g, queued) && s.Valid() && ReachedIn(g, queued, r, s)
    requires forall i | 0 <= i < |regs| :: regs[i].kind != ""
    ensures r < |regs| && Wants(regs[r], s)
  {
    var c, patterns, k :|
      && Subscribes(g, queued, c, patterns) && Subscribable(c) && Handled(c, patterns, s)
      && k in g.handlers && g.handlers[k].reg == r && DispatchTest(g.handlers[k], s);
    assert HandlerFaithful(regs, g, queued, k);
    GroupDispatchIsExact(g, queued, c, patterns, k, s);
  }

  lemma WantedIsReached(regs: seq<Registration>, g: EventGroup, queued: bool, r: nat, s: Subject)
    requires GroupFaithful(regs, g, queued) && s.Valid() && GroupStarts(g, queued)
    requires r < |regs| && regs[r].kind != "" && Wants(regs[r], s) && HasHandler(g, r)
    ensures ReachedIn(g, queued, r, s)
  {
    var c, patterns :| Subscribes(g, queued, c, patterns) && Subscribable(c);
    var k :| k in g.handlers && g.handlers[k].reg == r;
    assert HandlerFaithful(regs, g, queued, k);
    GroupDispatchIsExact(g, queued, c, patterns, k, s);
  }

  // ------------------------------------------------------ when groups subscribe

  /** A group's subscription goes through exactly when what is left of its specs is valid. */
  lemma GroupStartsIff(g: EventGroup, queued: bool)
    ensures GroupStarts(g, queued) <==> StartsWell(g)
  {
    if GroupStarts(g, queued) {
      var c, patterns :| Subscribes(g, queued, c, patterns) && Subscribable(c);
      var specs :| CompiledTo(g, specs, c.filters) && c == GroupConfig(g, c.filters);
      SubscribableIff(g, specs, c);
    }
    if StartsWell(g) {
      SpecOrder();
      var specs := CompactionExists(SpecCovers, SpecLess, GroupSpecs(g.handlers, g.handlers.Keys));
      var filters := seq(|specs|, i requires 0 <= i < |specs| => ToFilter(specs[i]));
      var c := GroupConfig(g, filters);
      SubscribableIff(g, specs, c);
      var raw, patterns := PatternsExist(c);
      assert CompiledTo(g, specs, c.filters);
      assert CompiledPatterns(c, queued, patterns, raw, patterns);
      assert Subscribes(g, queued, c, patterns);
    }
  }

  /** What the type registry checks when a handler is registered, and valid ids. */
  predicate ValidRegistration(r: Registration) {
    && ValidToken(r.scope) && ValidToken(r.agg) && ValidToken(r.kind)
    && (r.name == "" || ValidToken(r.name))
    && forall id | id in r.ids :: id == "" || ValidToken(id)
  }

  lemma ValidSpecs(r: Registration, h: Handler)
    requires ValidRegistration(r) && r.kind == h.kind && r.name == h.name && r.ids == h.ids
    ensures forall sp | sp in SpecsOf(h) :: ValidFilter(ToFilter(sp))
  {
    hide ValidToken;
  }

  lemma ValidGroupStarts(regs: seq<Registration>, g: EventGroup, queued: bool)
    requires GroupFaithful(regs, g, queued) && g.handlers.Keys != {}
    requires forall i | 0 <= i < |regs| :: ValidRegistration(regs[i])
    ensures GroupStarts(g, queued)
  {
    hide ValidToken, OneHandlerEach, ValidFilter, SpecsOf, SpecCovers, GroupStarts;
    var k0 :| k0 in g.handlers.Keys;
    assert HandlerFaithful(regs, g, queued, k0);
    forall sp | sp in GroupSpecs(g.handlers, g.handlers.Keys) ensures ValidFilter(ToFilter(sp)) {
      var k :| k in g.handlers && sp in SpecsOf(g.handlers[k]);
      assert HandlerFaithful(regs, g, queued, k);
      ValidSpecs(regs[g.handlers[k].reg], g.handlers[k]);
    }
    GroupStartsIff(g, queued);
  }

  // --------------------------------------------------------------- exactly once

  /** Where a handler is: a group of the bus and its key there. */
  datatype Place = InOrdered(ordered: OrderedKey, k: nat) | InQueue(queue: QueueKey, k: nat)

  ghost predicate HandlerAt(gs: Groups, at: Place, r: nat) {
    match at
    case InOrdered(key, k) => key in gs.ordered && k in gs.ordered[key].handlers && gs.ordered[key].handlers[k].reg == r
    case InQueue(key, k) => key in gs.queues && k in gs.queues[key].handlers && gs.queues[key].handlers[k].reg == r
  }

  ghost predicate OnlyPlace(gs: Groups, at: Place, r: nat) {
    HandlerAt(gs, at, r) && forall other | HandlerAt(gs, other, r) :: other == at
  }

  lemma PlaceIsOwn(regs: seq<Registration>, queue: string, gs: Groups, r: nat, at: Place)
    requires Faithful(regs, queue, gs) && r < |regs| && HandlerAt(gs, at, r)
    ensures if regs[r].queued then at.InQueue? && at.queue == QueueKeyOf(regs[r], queue)
            else at.InOrdered? && at.ordered == OrderedKeyOf(regs[r])
  {
    hide AllPlaced, OneHandlerEach;
    match at
    case InOrdered(key, k) => assert HandlerFaithful(regs, gs.ordered[key], false, k);
    case InQueue(key, k) => assert HandlerFaithful(regs, gs.queues[key], true, k);
  }

  lemma SameHandler(regs: seq<Registration>, queue: string, gs: Groups, r: nat, at: Place, other: Place)
    requires Faithful(regs, queue, gs) && HandlerAt(gs, at, r) && HandlerAt(gs, other, r)
    requires (at.InQueue? && other.InQueue? && at.queue == other.queue) ||
             (at.InOrdered? && other.InOrdered? && at.ordered == other.ordered)
    ensures other == at
  {
    hide AllPlaced, HandlerFaithful;
    if at.InQueue? {
      assert GroupFaithful(regs, gs.queues[at.queue], true);
    } else {
      assert GroupFaithful(regs, gs.ordered[at.ordered], false);
    }
  }

  lemma PlaceExists(regs: seq<Registration>, queue: string, gs: Groups, r: nat) returns (at: Place)
    requires AllPlaced(regs, queue, gs) && r < |regs|
    ensures HandlerAt(gs, at, r)
  {
    assert Placed(regs[r], r, queue, gs);
    if regs[r].queued {
      var key := QueueKeyOf(regs[r], queue);
      var k :| k in gs.queues[key].handlers && gs.queues[key].handlers[k].reg == r;
      at := InQueue(key, k);
    } else {
      var key := OrderedKeyOf(regs[r]);
      var k :| k in gs.ordered[key].handlers && gs.ordered[key].handlers[k].reg == r;
      at := InOrdered(key, k);
    }
  }

  /** Each registration has exactly one handler, in exactly one group. */
  lemma OnePlaceEach(regs: seq<Registration>, queue: string, gs: Groups, r: nat) returns (at: Place)
    requires Faithful(regs, queue, gs) && r < |regs|
    ensures OnlyPlace(gs, at, r)
  {
    at := PlaceExists(regs, queue, gs, r);
    hide Faithful, HandlerAt;
    PlaceIsOwn(regs, queue, gs, r, at);
    forall other | HandlerAt(gs, other, r) ensures other == at {
      PlaceIsOwn(regs, queue, gs, r, other);
      SameHandler(regs, queue, gs, r, at, other);
    }
  }
}

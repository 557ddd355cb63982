/** The bus's subscriptions on the server's streams, and which callbacks an event reaches.

    An ordered group has a consumer of its own. A queue group's consumer is durable: its
    name is the bus's queue, so two queue groups whose streams have the same name share one
    consumer. Each start writes its own patterns to it, the last one wins, and the server
    hands each message to one of the sessions that pull from it. How stream names come about
    is a parameter. */
module BusDelivery {
  import opened Wrappers
  import opened Subjects
  import opened Compaction
  import opened Filters
  import opened NatsFilters
  import opened BusDispatch

  /** The name of the stream for a scope and an aggregate type. */
  type StreamNames = (string, string) -> string

  function GroupStream(names: StreamNames, key: QueueKey): string {
    names(key.scope, key.agg)
  }

  function EventStream(names: StreamNames, s: Subject): string {
    names(s.scope, s.aggregateType)
  }

  /** The durable consumers after the given starts: for each stream the group that wrote the
      consumer's patterns last. */
  function Consumers(names: StreamNames, starts: seq<QueueKey>): map<string, QueueKey> {
    if starts == [] then map[]
    else
      var last := starts[|starts| - 1];
      Consumers(names, starts[..|starts| - 1])[GroupStream(names, last) := last]
  }

  /** `Connect` starts every queue group once, in any order. */
  ghost predicate StartsAll(gs: Groups, starts: seq<QueueKey>) {
    && (forall key :: key in starts <==> key in gs.queues)
    && (forall i, j | 0 <= i < j < |starts| :: starts[i] != starts[j])
  }

  /** One message on a queue consumer: delivered by the patterns of `owner`, to a session of
      `taker`, which checks it again with its own config and dispatches it to its own handlers. */
  ghost predicate Serves(owner: EventGroup, taker: EventGroup, r: nat, s: Subject) {
    DeliveredFor(owner, s) && PassedOn(taker, r, s)
  }

  ghost predicate DeliveredFor(owner: EventGroup, s: Subject) {
    exists c, patterns :: Subscribes(owner, true, c, patterns) && Subscribable(c) && Delivered(patterns, s)
  }

  ghost predicate PassedOn(taker: EventGroup, r: nat, s: Subject) {
    exists c, patterns, k ::
      && Subscribes(taker, true, c, patterns) && Subscribable(c) && Recheck(c, s) && AnyOrIn(c.ids, s.aggregateId)
      && k in taker.handlers && taker.handlers[k].reg == r && DispatchTest(taker.handlers[k], s)
  }

  ghost predicate OnStream(gs: Groups, names: StreamNames, key: QueueKey, s: Subject) {
    key in gs.queues && GroupStream(names, key) == EventStream(names, s)
  }

  /** Who gets the event from its stream's queue consumer: one of the groups there, if any. */
  ghost predicate Takes(gs: Groups, names: StreamNames, s: Subject, taker: Option<QueueKey>) {
    if taker.Some? then OnStream(gs, names, taker.value, s) else forall key :: !OnStream(gs, names, key, s)
  }

  /** The handler of registration `r` is invoked with the event. */
  ghost predicate Invoked(
      gs: Groups, names: StreamNames, starts: seq<QueueKey>, taker: Option<QueueKey>, r: nat, s: Subject)
  {
    || (exists key :: key in gs.ordered && ReachedIn(gs.ordered[key], false, r, s))
    || (taker.Some? && QueueInvokes(gs, names, starts, taker.value, r, s))
  }

  ghost predicate QueueInvokes(
      gs: Groups, names: StreamNames, starts: seq<QueueKey>, taker: QueueKey, r: nat, s: Subject)
  {
    var consumers, stream := Consumers(names, starts), EventStream(names, s);
    && taker in gs.queues && stream in consumers && consumers[stream] in gs.queues
    && Serves(gs.queues[consumers[stream]], gs.queues[taker], r, s)
  }

  /** No two queue groups have streams of the same name. */
  ghost predicate NoSharedStream(gs: Groups, names: StreamNames) {
    forall k1, k2 | k1 in gs.queues && k2 in gs.queues && GroupStream(names, k1) == GroupStream(names, k2) :: k1 == k2
  }

  lemma {:induction false} ConsumersAreStarted(names: StreamNames, starts: seq<QueueKey>, key: QueueKey)
    ensures forall n | n in Consumers(names, starts) ::
              Consumers(names, starts)[n] in starts && GroupStream(names, Consumers(names, starts)[n]) == n
    ensures key in starts ==> GroupStream(names, key) in Consumers(names, starts)
  {
    if starts != [] {
      ConsumersAreStarted(names, starts[..|starts| - 1], key);
    }
  }

  /** Whatever a consumer delivers is of the scope and type of the group that wrote it. */
  lemma DeliveredInScope(g: EventGroup, s: Subject)
    requires s.Valid() && DeliveredFor(g, s)
    ensures s.scope == g.scope && s.aggregateType == g.agg
  {
    var c, patterns :| Subscribes(g, true, c, patterns) && Subscribable(c) && Delivered(patterns, s);
    var raw, compacted :| CompiledPatterns(c, true, patterns, raw, compacted);
    if patterns == compacted {
      OrderedAgreesWithReference(c, raw, compacted, s);
      assert c.scope == g.scope && c.types == [g.agg] && c.scope != "";
    } else {
      var kind, id :| CollapsedTo(c, patterns, kind, id);
      CollapsedDelivers(c, patterns, kind, id, s);
    }
  }

  /** A group on a consumer it wrote itself is exact. */
  lemma OwnConsumerIsExact(regs: seq<Registration>, g: EventGroup, r: nat, s: Subject)
    requires GroupFaithful(regs, g, true) && s.Valid() && GroupStarts(g, true) && r < |regs|
    requires forall i | 0 <= i < |regs| :: regs[i].kind != ""
    ensures Serves(g, g, r, s) <==> HasHandler(g, r) && Wants(regs[r], s)
  {
    if Serves(g, g, r, s) {
      DeliveredInScope(g, s);
      var k :| k in g.handlers && g.handlers[k].reg == r && DispatchTest(g.handlers[k], s);
      assert HandlerFaithful(regs, g, true, k);
    }
    if HasHandler(g, r) && Wants(regs[r], s) {
      WantedIsReached(regs, g, true, r, s);
      var c, patterns, k :|
        && Subscribes(g, true, c, patterns) && Subscribable(c) && Handled(c, patterns, s)
        && k in g.handlers && g.handlers[k].reg == r && DispatchTest(g.handlers[k], s);
      assert DeliveredFor(g, s) && PassedOn(g, r, s);
    }
  }

  /** Without shared streams the consumer of a stream is the one its only group wrote. */
  lemma OwnConsumer(gs: Groups, names: StreamNames, starts: seq<QueueKey>, taker: QueueKey, s: Subject)
    requires NoSharedStream(gs, names) && StartsAll(gs, starts) && OnStream(gs, names, taker, s)
    ensures EventStream(names, s) in Consumers(names, starts)
    ensures Consumers(names, starts)[EventStream(names, s)] == taker
  {
    ConsumersAreStarted(names, starts, taker);
  }

  lemma QueueInvokesIff(
      regs: seq<Registration>, queue: string, gs: Groups, names: StreamNames, starts: seq<QueueKey>, taker: QueueKey,
      r: nat, s: Subject)
    requires Faithful(regs, queue, gs) && r < |regs| && s.Valid()
    requires forall i | 0 <= i < |regs| :: ValidRegistration(regs[i])
    requires NoSharedStream(gs, names) && StartsAll(gs, starts) && OnStream(gs, names, taker, s)
    ensures QueueInvokes(gs, names, starts, taker, r, s) <==> HasHandler(gs.queues[taker], r) && Wants(regs[r], s)
  {
    OwnConsumer(gs, names, starts, taker, s);
    ValidGroupStarts(regs, gs.queues[taker], true);
    KindsAreGiven(regs);
    OwnConsumerIsExact(regs, gs.queues[taker], r, s);
  }

  lemma KindsAreGiven(regs: seq<Registration>)
    requires forall i | 0 <= i < |regs| :: ValidRegistration(regs[i])
    ensures forall i | 0 <= i < |regs| :: regs[i].kind != ""
  {
  }

  /** An ordered group's callbacks are reached exactly by the events they are for. */
  lemma OrderedReachedIff(regs: seq<Registration>, queue: string, gs: Groups, r: nat, s: Subject)
    requires Faithful(regs, queue, gs) && r < |regs| && s.Valid()
    requires forall i | 0 <= i < |regs| :: ValidRegistration(regs[i])
    ensures (exists key :: key in gs.ordered && ReachedIn(gs.ordered[key], false, r, s))
            <==> !regs[r].queued && Wants(regs[r], s)
  {
    KindsAreGiven(regs);
    if key :| key in gs.ordered && ReachedIn(gs.ordered[key], false, r, s) {
      ReachedIsWanted(regs, gs.ordered[key], false, r, s);
      var k :| k in gs.ordered[key].handlers && gs.ordered[key].handlers[k].reg == r;
      assert HandlerFaithful(regs, gs.ordered[key], false, k);
    }
    if !regs[r].queued && Wants(regs[r], s) {
      assert Placed(regs[r], r, queue, gs);
      var key := OrderedKeyOf(regs[r]);
      ValidGroupStarts(regs, gs.ordered[key], false);
      WantedIsReached(regs, gs.ordered[key], false, r, s);
    }
  }

  lemma QueueHandlerIsQueued(regs: seq<Registration>, queue: string, gs: Groups, key: QueueKey, r: nat)
    requires Faithful(regs, queue, gs) && r < |regs| && key in gs.queues && HasHandler(gs.queues[key], r)
    ensures regs[r].queued && key == QueueKeyOf(regs[r], queue)
  {
    var k :| k in gs.queues[key].handlers && gs.queues[key].handlers[k].reg == r;
    PlaceIsOwn(regs, queue, gs, r, InQueue(key, k));
  }

  lemma WantedTakerIsOwn(
      regs: seq<Registration>, queue: string, gs: Groups, names: StreamNames, taker: Option<QueueKey>, r: nat,
      s: Subject)
    requires Faithful(regs, queue, gs) && r < |regs| && regs[r].queued && Wants(regs[r], s)
    requires NoSharedStream(gs, names) && Takes(gs, names, s, taker)
    ensures taker == Some(QueueKeyOf(regs[r], queue)) && HasHandler(gs.queues[taker.value], r)
  {
    assert Placed(regs[r], r, queue, gs);
    assert OnStream(gs, names, QueueKeyOf(regs[r], queue), s);
  }

  /** MAIN RESULT, end to end: on a bus whose registrations have valid tokens and whose queue
      groups do not share a stream, whatever the order of the starts and whoever takes the
      event, the handler of a registration is invoked with an event if and only if the event has
      the registration's scope, type and kind, its name if it gave one, and one of its ids if it
      gave any; and it has a single handler in a single group, so one delivery invokes it once. */
  lemma EndToEnd(
      regs: seq<Registration>, queue: string, gs: Groups, names: StreamNames, starts: seq<QueueKey>,
      taker: Option<QueueKey>, r: nat, s: Subject)
    requires Faithful(regs, queue, gs) && r < |regs| && s.Valid()
    requires forall i | 0 <= i < |regs| :: ValidRegistration(regs[i])
    requires NoSharedStream(gs, names) && StartsAll(gs, starts) && Takes(gs, names, s, taker)
    ensures Invoked(gs, names, starts, taker, r, s) <==> Wants(regs[r], s)
    ensures exists at :: OnlyPlace(gs, at, r)
  {
    hide Faithful, NoSharedStream, StartsAll, Wants, ReachedIn, QueueInvokes, ValidRegistration;
    var at := OnePlaceEach(regs, queue, gs, r);
    OrderedReachedIff(regs, queue, gs, r, s);
    if taker.Some? {
      QueueInvokesIff(regs, queue, gs, names, starts, taker.value, r, s);
      if QueueInvokes(gs, names, starts, taker.value, r, s) {
        QueueHandlerIsQueued(regs, queue, gs, taker.value, r);
      }
    }
    if regs[r].queued && Wants(regs[r], s) {
      WantedTakerIsOwn(regs, queue, gs, names, taker, r, s);
    }
  }

  // --------------------------------------------------------- when streams are shared

  /** Some event can match: an id list holds at least one valid id. */
  predicate Matchable(r: Registration) {
    r.ids == [] || exists id :: id in r.ids && ValidToken(id)
  }

  lemma XIsValid()
    ensures ValidToken("x")
  {
  }

  lemma WantedSubject(r: Registration) returns (s: Subject)
    requires ValidRegistration(r) && Matchable(r)
    ensures s.Valid() && Wants(r, s)
  {
    XIsValid();
    var id := "x";
    if r.ids != [] {
      id :| id in r.ids && ValidToken(id);
    }
    s := Subject(r.scope, r.kind, r.agg, id, if r.name == "" then "x" else r.name);
    forall i | 0 <= i < 5 ensures ValidToken(s.Tokens()[i]) {
    }
  }

  /** Invocations by queue groups are right for every order of starts, taker and event. */
  ghost predicate QueuesExact(regs: seq<Registration>, gs: Groups, names: StreamNames) {
    forall starts, taker, r: nat, s: Subject
      | && StartsAll(gs, starts) && s.Valid() && Takes(gs, names, s, taker) && r < |regs| && regs[r].queued
      :: Invoked(gs, names, starts, taker, r, s) <==> Wants(regs[r], s)
  }

  lemma {:induction false} Listing(keys: set<QueueKey>) returns (list: seq<QueueKey>)
    ensures forall key :: key in list <==> key in keys
    ensures forall i, j | 0 <= i < j < |list| :: list[i] != list[j]
    decreases keys
  {
    list := [];
    if key :| key in keys {
      var rest := Listing(keys - {key});
      list := rest + [key];
    }
  }

  lemma EndsWith(gs: Groups, last: QueueKey) returns (starts: seq<QueueKey>)
    requires last in gs.queues
    ensures StartsAll(gs, starts) && starts != [] && starts[|starts| - 1] == last
  {
    var rest := Listing(gs.queues.Keys - {last});
    starts := rest + [last];
  }

  lemma GroupWantsSomething(regs: seq<Registration>, queue: string, gs: Groups, key: QueueKey)
    returns (r: nat, s: Subject)
    requires Faithful(regs, queue, gs) && key in gs.queues
    requires forall i | 0 <= i < |regs| :: ValidRegistration(regs[i]) && (regs[i].queued ==> Matchable(regs[i]))
    ensures r < |regs| && regs[r].queued && s.Valid() && Wants(regs[r], s)
    ensures key.scope == s.scope && key.agg == s.aggregateType
  {
    hide AllPlaced, OrderedFaithful, ValidRegistration, Matchable, OneHandlerEach;
    var g := gs.queues[key];
    var k :| k in g.handlers.Keys;
    assert HandlerFaithful(regs, g, true, k);
    r := g.handlers[k].reg;
    s := WantedSubject(regs[r]);
  }

  /** A consumer written last by a group of another scope or type serves no one else. */
  lemma ForeignConsumerServesNobody(
      gs: Groups, names: StreamNames, starts: seq<QueueKey>, taker: QueueKey, r: nat, s: Subject)
    requires starts != [] && s.Valid() && starts[|starts| - 1] in gs.queues
    requires
      var last := starts[|starts| - 1];
      && GroupStream(names, last) == EventStream(names, s)
      && !(gs.queues[last].scope == s.scope && gs.queues[last].agg == s.aggregateType)
    ensures !QueueInvokes(gs, names, starts, taker, r, s)
  {
    hide DeliveredFor, PassedOn;
    var last := starts[|starts| - 1];
    if DeliveredFor(gs.queues[last], s) {
      DeliveredInScope(gs.queues[last], s);
    }
  }

  /** If two groups share a stream, the one that starts first loses every event it wants. */
  lemma SharedStreamLoses(
      regs: seq<Registration>, queue: string, gs: Groups, names: StreamNames, k1: QueueKey, k2: QueueKey)
    returns (starts: seq<QueueKey>, r: nat, s: Subject)
    requires Faithful(regs, queue, gs)
    requires forall i | 0 <= i < |regs| :: ValidRegistration(regs[i]) && (regs[i].queued ==> Matchable(regs[i]))
    requires k1 in gs.queues && k2 in gs.queues && k1 != k2 && GroupStream(names, k1) == GroupStream(names, k2)
    ensures StartsAll(gs, starts) && s.Valid() && OnStream(gs, names, k1, s)
    ensures r < |regs| && regs[r].queued && Wants(regs[r], s) && !Invoked(gs, names, starts, Some(k1), r, s)
  {
    assert k1.queue == k2.queue == queue && gs.queues[k2].scope == k2.scope && gs.queues[k2].agg == k2.agg;
    hide Faithful, ValidRegistration, Matchable, StartsAll, Wants, QueueInvokes, ReachedIn;
    r, s := GroupWantsSomething(regs, queue, gs, k1);
    starts := EndsWith(gs, k2);
    ForeignConsumerServesNobody(gs, names, starts, k1, r, s);
    OrderedReachedIff(regs, queue, gs, r, s);
  }

  /** MAIN RESULT: queue callbacks are exact exactly when no two queue groups share a stream. */
  lemma QueuesExactIff(regs: seq<Registration>, queue: string, gs: Groups, names: StreamNames)
    requires Faithful(regs, queue, gs)
    requires forall i | 0 <= i < |regs| :: ValidRegistration(regs[i]) && (regs[i].queued ==> Matchable(regs[i]))
    ensures QueuesExact(regs, gs, names) <==> NoSharedStream(gs, names)
  {
    hide Faithful, ValidRegistration, Wants, Invoked, StartsAll, Matchable;
    if NoSharedStream(gs, names) {
      forall starts, taker, r: nat, s: Subject
        | && StartsAll(gs, starts) && s.Valid() && Takes(gs, names, s, taker) && r < |regs| && regs[r].queued
        ensures Invoked(gs, names, starts, taker, r, s) <==> Wants(regs[r], s)
      {
        EndToEnd(regs, queue, gs, names, starts, taker, r, s);
      }
    } else {
      var k1, k2 :| k1 in gs.queues && k2 in gs.queues && k1 != k2 && GroupStream(names, k1) == GroupStream(names, k2);
      var starts, r, s := SharedStreamLoses(regs, queue, gs, names, k1, k2);
      assert Takes(gs, names, s, Some(k1));
    }
  }

  // ------------------------------------------------------------ default stream names

  function UpperCase(upper: char -> char, s: string): string {
    seq(|s|, i requires 0 <= i < |s| => upper(s[i]))
  }

  /** `StreamName` with the default pattern, whatever upper-casing does to single characters. */
  function DefaultNames(upper: char -> char): StreamNames {
    (scope, agg) => UpperCase(upper, scope) + "_" + UpperCase(upper, agg) + "_EVENTS"
  }

  lemma DefaultNamesCollide(upper: char -> char)
    requires upper('_') == '_'
    ensures DefaultNames(upper)("a_b", "c") == DefaultNames(upper)("a", "b_c")
    ensures upper('o') == upper('O') ==> DefaultNames(upper)("s", "order") == DefaultNames(upper)("s", "Order")
  {
    assert UpperCase(upper, "a_b") == UpperCase(upper, "a") + "_" + UpperCase(upper, "b");
    assert UpperCase(upper, "b_c") == UpperCase(upper, "b") + "_" + UpperCase(upper, "c");
    if upper('o') == upper('O') {
      assert UpperCase(upper, "order") == UpperCase(upper, "Order");
    }
  }

  function TwoQueueGroups(r1: Registration, r2: Registration, queue: string): Groups {
    AddQueued(AddQueued(Groups(map[], map[]), r1, 0, queue), r2, 1, queue)
  }

  lemma TwoQueueGroupsAreFaithful(r1: Registration, r2: Registration, queue: string)
    requires r1.queued && r2.queued && r1.kind != "" && r2.kind != ""
    ensures
      var gs := TwoQueueGroups(r1, r2, queue);
      Faithful([r1, r2], queue, gs) && QueueKeyOf(r1, queue) in gs.queues && QueueKeyOf(r2, queue) in gs.queues
  {
    var empty := Groups(map[], map[]);
    assert Faithful([], queue, empty);
    assert [] + [r1] == [r1] && [r1] + [r2] == [r1, r2];
    hide Faithful;
    AddQueuedFaithful([], queue, empty, r1);
    AddQueuedFaithful([r1], queue, AddQueued(empty, r1, 0, queue), r2);
  }

  lemma BothValid(r1: Registration, r2: Registration)
    requires ValidRegistration(r1) && ValidRegistration(r2) && r1.ids == r2.ids == []
    ensures forall r | r in [r1, r2] :: ValidRegistration(r) && Matchable(r) && r.kind != ""
  {
  }

  lemma TwoOnOneStream(r1: Registration, r2: Registration, queue: string, names: StreamNames)
    requires ValidRegistration(r1) && ValidRegistration(r2) && r1.queued && r2.queued && r1.ids == r2.ids == []
    requires QueueKeyOf(r1, queue) != QueueKeyOf(r2, queue)
    requires GroupStream(names, QueueKeyOf(r1, queue)) == GroupStream(names, QueueKeyOf(r2, queue))
    ensures Faithful([r1, r2], queue, TwoQueueGroups(r1, r2, queue))
    ensures !QueuesExact([r1, r2], TwoQueueGroups(r1, r2, queue), names)
  {
    hide ValidRegistration, Matchable, Faithful, QueuesExact, TwoQueueGroups, QueueKeyOf, GroupStream;
    BothValid(r1, r2);
    TwoQueueGroupsAreFaithful(r1, r2, queue);
    QueuesExactIff([r1, r2], queue, TwoQueueGroups(r1, r2, queue), names);
  }

  lemma LetterTokens()
    ensures ValidToken("a_b") && ValidToken("c") && ValidToken("a") && ValidToken("b_c")
  {
  }

  /** Two queue handlers for scope `a_b`, type `c` and for scope `a`, type `b_c`: all tokens
      are valid, and with the default stream names one of them misses events. */
  lemma DefaultNamesLoseEvents(upper: char -> char, queue: string)
    requires upper('_') == '_'
    ensures
      var r1 := Registration(true, "a_b", "c", KIND_EVENT, "", []);
      var r2 := Registration(true, "a", "b_c", KIND_EVENT, "", []);
      && ValidRegistration(r1) && ValidRegistration(r2) && Faithful([r1, r2], queue, TwoQueueGroups(r1, r2, queue))
      && !QueuesExact([r1, r2], TwoQueueGroups(r1, r2, queue), DefaultNames(upper))
  {
    var r1 := Registration(true, "a_b", "c", KIND_EVENT, "", []);
    var r2 := Registration(true, "a", "b_c", KIND_EVENT, "", []);
    KindEventIsValid();
    LetterTokens();
    DefaultNamesCollide(upper);
    hide ValidToken, Faithful, QueuesExact, TwoQueueGroups, DefaultNames;
    assert |r1.scope| != |r2.scope|;
    TwoOnOneStream(r1, r2, queue, DefaultNames(upper));
  }
}

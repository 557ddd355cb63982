/** `Connect` and `Disconnect` of the bus, any number of calls of each, interleaved at
    every lock, channel operation and subscriber call, together with the delivery of
    messages to ordered subscriptions that feeds the caught-up barrier.

    Only one `Connect` ever gets past its first lock and only one `Disconnect` does
    (`ThreadsInv`), so their local variables are fields here: `plan`, `orderedCount` and
    `got` of the former, `doomed` and `nextStop` of the latter. Subscription `k`, the
    `k`-th to be created, is the one for registration `plan[k]`. */
module BusLifecycle {
  import opened Wrappers
  import opened CatchUp

  datatype Kind = Ordered | CommandReg | QueryReg | Queue

  /** What became of a created subscription: how often `Stop` was called on it, and whether
      it was stored in its registration after the bus had closed. */
  datatype Fate = Fate(stops: nat, late: bool)

  datatype Pc =
    | ConnectCalled
    | Starting          // Connect: about to create the next subscription
    | Subscribed        // Connect: created one, about to store it
    | Rejecting         // Connect: may not store it, about to stop it
    | Waiting           // Connect: at the caught-up barrier
    | DisconnectCalled  // also: Connect failing, calls Disconnect
    | Cancelling        // Disconnect: past the lock, about to cancel the context
    | Stopping          // Disconnect: stopping what it collected
    | Signalling        // Disconnect: about to signal done
    | Returned

  datatype Bus = Bus(
    running: bool, closed: bool, cancelled: bool,
    kinds: seq<Kind>, held: seq<Option<nat>>,            // registrations and their `sub` fields
    fates: seq<Fate>, sessions: seq<Session>,            // created subscriptions
    starter: Option<nat>, plan: seq<nat>, orderedCount: nat, got: nat, channel: nat,
    closer: Option<nat>, doomed: seq<nat>, nextStop: nat, stopErr: bool, stopFailed: bool,
    doneCloses: nat, doneErrors: nat,
    threads: seq<Pc>)

  function NewBus(): Bus {
    Bus(false, false, false, [], [], [], [], None, [], 0, 0, 0, None, [], 0, false, false, 0, 0, [])
  }

  // ------------------------------------------------------------------ actions

  datatype Action =
    | Register(kind: Kind)                      // a Handle... call
    | CallConnect
    | CallDisconnect
    | FatalError                                // makeOnError records an error and spawns Disconnect
    | CancelContext                             // the context given to Connect ends
    | EnterConnect(t: nat, plan: seq<nat>, ordered: nat)
    | Subscribe(t: nat, ok: bool, backlog: nat) // with `backlog` matching messages in the stream
    | Store(t: nat)
    | StopRejected(t: nat, fails: bool)
    | Receive(t: nat)
    | GiveUpWaiting(t: nat)
    | EnterDisconnect(t: nat)
    | Cancel(t: nat)
    | StopNext(t: nat, fails: bool)
    | SignalDone(t: nat)
    | MessageArrives(s: nat)
    | SendMessage(s: nat)                       // from the server to the session
    | BeginMessage(s: nat)
    | EndMessage(s: nat)

  function Rank(k: Kind): nat {
    match k case Ordered => 0 case CommandReg => 1 case QueryReg => 2 case Queue => 3
  }

  /** The order in which `Connect` starts things: every registration once, ordered groups
      first, then commands, queries and queue groups; within a map the order is arbitrary. */
  predicate PlanOk(kinds: seq<Kind>, plan: seq<nat>, ordered: nat) {
    && |plan| == |kinds| && ordered <= |plan|
    && (forall i | 0 <= i < |plan| :: plan[i] < |kinds|)
    && (forall i, j | 0 <= i < j < |plan| :: plan[i] != plan[j])
    && (forall i, j | 0 <= i < j < |plan| :: Rank(kinds[plan[i]]) <= Rank(kinds[plan[j]]))
    && (forall i | 0 <= i < |plan| :: kinds[plan[i]].Ordered? <==> i < ordered)
  }

  predicate At(b: Bus, t: nat, pc: Pc) {
    t < |b.threads| && b.threads[t] == pc
  }

  /** The array accesses of the steps below are in range; the invariant makes them so. */
  predicate InRange(b: Bus) {
    && |b.fates| == |b.sessions| <= |b.plan|
    && |b.kinds| == |b.held|
    && (forall i | 0 <= i < |b.plan| :: b.plan[i] < |b.kinds|)
    && (forall j | 0 <= j < |b.doomed| :: b.doomed[j] < |b.fates|)
  }

  predicate Enabled(b: Bus, a: Action) {
    && InRange(b)
    && match a
       case Register(_) => true
       case CallConnect => true
       case CallDisconnect => true
       case FatalError => true
       case CancelContext => true
       case EnterConnect(t, plan, ordered) =>
         At(b, t, ConnectCalled) && (b.closed || b.running || PlanOk(b.kinds, plan, ordered))
       case Subscribe(t, _, _) => At(b, t, Starting) && |b.fates| < |b.plan|
       case Store(t) => At(b, t, Subscribed) && b.fates != []
       case StopRejected(t, _) => At(b, t, Rejecting) && b.fates != []
       case Receive(t) => At(b, t, Waiting) && b.channel > 0
       case GiveUpWaiting(t) => At(b, t, Waiting) && b.cancelled
       case EnterDisconnect(t) => At(b, t, DisconnectCalled)
       case Cancel(t) => At(b, t, Cancelling)
       case StopNext(t, _) => At(b, t, Stopping)
       case SignalDone(t) => At(b, t, Signalling)
       case MessageArrives(s) => s < |b.sessions|
       case SendMessage(s) => s < |b.sessions| && Pending(b.sessions[s]) > 0
       case BeginMessage(s) => s < |b.sessions| && b.sessions[s].handling.None? && b.sessions[s].inbox != []
       case EndMessage(s) => s < |b.sessions| && b.sessions[s].handling.Some?
  }

  function WithPc(b: Bus, t: nat, pc: Pc): Bus
    requires t < |b.threads|
  {
    b.(threads := b.threads[t := pc])
  }

  /** Where `Connect` goes on once every subscription created so far is settled. */
  function AfterStart(created: nat, planned: nat, got: nat, ordered: nat): Pc {
    if created == ordered && got < ordered then Waiting else if created < planned then Starting else Returned
  }

  /** The subscriptions held by the registrations, in order. */
  function HeldSubs(held: seq<Option<nat>>): seq<nat> {
    if held == [] then []
    else HeldSubs(held[..|held| - 1]) + (if held[|held| - 1].Some? then [held[|held| - 1].value] else [])
  }

  function StopFate(fates: seq<Fate>, k: nat): seq<Fate>
    requires k < |fates|
  {
    fates[k := fates[k].(stops := fates[k].stops + 1)]
  }

  function WithSession(b: Bus, s: nat, x: Session): Bus
    requires s < |b.sessions|
  {
    b.(sessions := b.sessions[s := x])
  }

  /** Ordered and queue groups are stored only on a running bus and only once. */
  predicate Checked(k: Kind) {
    k.Ordered? || k.Queue?
  }

  function DoRegister(b: Bus, kind: Kind): Bus {
    if b.closed || b.running then b    // panics
    else b.(kinds := b.kinds + [kind], held := b.held + [None])
  }

  function DoEnterConnect(b: Bus, t: nat, plan: seq<nat>, ordered: nat): Bus
    requires t < |b.threads|
  {
    if b.closed || b.running then WithPc(b, t, Returned)    // ErrClosed, or nothing to do
    else
      WithPc(b.(running := true, starter := Some(t), plan := plan, orderedCount := ordered),
             t, AfterStart(|b.fates|, |plan|, b.got, ordered))
  }

  /** The consumer's pending count at its creation is the backlog; an ordered session that has
      none signals at once: one send on the channel. */
  function DoSubscribe(b: Bus, t: nat, backlog: nat): Bus
    requires InRange(b) && |b.fates| < |b.plan| && t < |b.threads|
  {
    var x := Opened(backlog, b.kinds[b.plan[|b.fates|]].Ordered?);
    b.(fates := b.fates + [Fate(0, false)],
       sessions := b.sessions + [x],
       channel := b.channel + x.signals,
       threads := b.threads[t := Subscribed])
  }

  function DoStore(b: Bus, t: nat): Bus
    requires InRange(b) && b.fates != [] && t < |b.threads|
  {
    var k := |b.fates| - 1;
    var slot := b.plan[k];
    if Checked(b.kinds[slot]) && (!b.running || b.held[slot].Some?) then WithPc(b, t, Rejecting)
    else
      WithPc(b.(held := b.held[slot := Some(k)], fates := b.fates[k := b.fates[k].(late := b.closed)]),
             t, AfterStart(|b.fates|, |b.plan|, b.got, b.orderedCount))
  }

  function DoStopRejected(b: Bus, t: nat, fails: bool): Bus
    requires b.fates != [] && t < |b.threads|
  {
    WithPc(b.(fates := StopFate(b.fates, |b.fates| - 1)),
           t, if fails then DisconnectCalled else AfterStart(|b.fates|, |b.plan|, b.got, b.orderedCount))
  }

  function DoReceive(b: Bus, t: nat): Bus
    requires b.channel > 0 && t < |b.threads|
  {
    WithPc(b.(channel := b.channel - 1, got := b.got + 1),
           t, AfterStart(|b.fates|, |b.plan|, b.got + 1, b.orderedCount))
  }

  function DoEnterDisconnect(b: Bus, t: nat): Bus
    requires t < |b.threads|
  {
    if b.closed then WithPc(b, t, Returned)
    else
      WithPc(b.(closed := true, running := false, closer := Some(t),
                doomed := HeldSubs(b.held), held := seq(|b.held|, _ => None)), t, Cancelling)
  }

  function DoStopNext(b: Bus, t: nat, fails: bool): Bus
    requires InRange(b) && t < |b.threads|
  {
    if b.nextStop >= |b.doomed| then WithPc(b, t, Signalling)
    else b.(fates := StopFate(b.fates, b.doomed[b.nextStop]), nextStop := b.nextStop + 1, stopFailed :=
        b.stopFailed || fails)
  }

  function DoSignalDone(b: Bus, t: nat): Bus
    requires t < |b.threads|
  {
    var failed := b.stopErr || b.stopFailed;
    WithPc(if b.doneCloses > 0 then b
           else b.(doneCloses := b.doneCloses + 1, doneErrors := b.doneErrors + (if failed then 1 else 0)), t, Returned)
  }

  /** After the handler of a message sent with none pending, an ordered session signals: one
      send on the channel, the first time only. */
  function DoEndMessage(b: Bus, s: nat): Bus
    requires InRange(b) && s < |b.sessions| && b.sessions[s].handling.Some?
  {
    var x := b.sessions[s];
    var x' := Handled(x, b.kinds[b.plan[s]].Ordered?);
    b.(sessions := b.sessions[s := x'], channel := b.channel + (if x'.signals > x.signals then 1 else 0))
  }

  function Next(b: Bus, a: Action): Bus
    requires Enabled(b, a)
  {
    match a
    case Register(kind) => DoRegister(b, kind)
    case CallConnect => b.(threads := b.threads + [ConnectCalled])
    case CallDisconnect => b.(threads := b.threads + [DisconnectCalled])
    case FatalError => b.(stopErr := true, threads := b.threads + [DisconnectCalled])
    case CancelContext => b.(cancelled := true)
    case EnterConnect(t, plan, ordered) => DoEnterConnect(b, t, plan, ordered)
    case Subscribe(t, ok, backlog) =>
      if ok then DoSubscribe(b, t, backlog) else WithPc(b, t, DisconnectCalled)
    case Store(t) => DoStore(b, t)
    case StopRejected(t, fails) => DoStopRejected(b, t, fails)
    case Receive(t) => DoReceive(b, t)
    case GiveUpWaiting(t) => WithPc(b, t, DisconnectCalled)
    case EnterDisconnect(t) => DoEnterDisconnect(b, t)
    case Cancel(t) => WithPc(b.(cancelled := true), t, Stopping)
    case StopNext(t, fails) => DoStopNext(b, t, fails)
    case SignalDone(t) => DoSignalDone(b, t)
    case MessageArrives(s) => WithSession(b, s, Arrive(b.sessions[s]))
    case SendMessage(s) => WithSession(b, s, Send(b.sessions[s]))
    case BeginMessage(s) => WithSession(b, s, Begin(b.sessions[s]))
    case EndMessage(s) => DoEndMessage(b, s)
  }

  function Run(acts: seq<Action>): Bus {
    if acts == [] then NewBus()
    else
      var b := Run(acts[..|acts| - 1]);
      if Enabled(b, acts[|acts| - 1]) then Next(b, acts[|acts| - 1]) else b
  }

  // ---------------------------------------------------------------- invariant

  predicate Active(pc: Pc) {
    pc.Starting? || pc.Subscribed? || pc.Rejecting? || pc.Waiting?
  }

  predicate Closing(pc: Pc) {
    pc.Cancelling? || pc.Stopping? || pc.Signalling?
  }

  /** One `Connect` got in, one `Disconnect` got in, and nobody else is past the lock. */
  ghost predicate ThreadsInv(running: bool, closed: bool, starter: Option<nat>, closer: Option<nat>, threads: seq<Pc>) {
    && (starter.Some? ==> starter.value < |threads| && (running || closed))
    && (running ==> starter.Some? && !closed)
    && (closed <==> closer.Some?)
    && (closer.Some? ==> closer.value < |threads|)
    && (forall t | 0 <= t < |threads| && Active(threads[t]) :: starter == Some(t))
    && (forall t | 0 <= t < |threads| && Closing(threads[t]) :: closer == Some(t))
  }

  /** The subscription created last is still in the hands of `Connect`. */
  predicate InHand(starter: Option<nat>, threads: seq<Pc>) {
    && starter.Some? && starter.value < |threads|
    && (threads[starter.value].Subscribed? || threads[starter.value].Rejecting?)
  }

  ghost predicate PcPlan(pc: Pc, created: nat, planned: nat, got: nat, ordered: nat) {
    && (pc.Starting? ==> created < planned && (created == ordered ==> got == ordered))
    && (pc.Waiting? ==> created == ordered && got < ordered)
    && (pc.Subscribed? || pc.Rejecting? ==> created > 0)
  }

  /** Subscriptions are created in plan order, and none past the barrier before it opens. */
  ghost predicate PlanInv(
      starter: Option<nat>, kinds: seq<Kind>, plan: seq<nat>, ordered: nat, got: nat, created: nat, threads: seq<Pc>)
  {
    && (if starter.Some? then PlanOk(kinds, plan, ordered) else plan == [] && ordered == 0)
    && created <= |plan|
    && got <= ordered
    && (got > 0 ==> created >= ordered)
    && (created > ordered ==> got == ordered)
    && (forall t | 0 <= t < |threads| :: PcPlan(threads[t], created, |plan|, got, ordered))
  }

  function SumSignals(sessions: seq<Session>): nat {
    if sessions == [] then 0 else SumSignals(sessions[..|sessions| - 1]) + sessions[|sessions| - 1].signals
  }

  /** Every signal sent is in the channel or was received; sessions signal at most once, only
      ordered ones, and only after their backlog. */
  ghost predicate SignalsInv(sessions: seq<Session>, ordered: nat, inFlightOrReceived: nat) {
    && inFlightOrReceived == SumSignals(sessions)
    && (forall k | 0 <= k < |sessions| :: SessionInv(sessions[k], k < ordered))
  }

  ghost predicate HeldAt(held: seq<Option<nat>>, plan: seq<nat>, k: nat) {
    k < |plan| && plan[k] < |held| && held[plan[k]] == Some(k)
  }

  ghost predicate ToStop(doomed: seq<nat>, nextStop: nat, k: nat) {
    exists j :: nextStop <= j < |doomed| && doomed[j] == k
  }

  /** Each subscription is in exactly one place: in hand, in its registration, on the list
      of the closing `Disconnect`, or stopped. */
  ghost predicate FateInv(
      fate: Fate, k: nat, inHand: bool, closed: bool, held: seq<Option<nat>>, plan: seq<nat>, doomed: seq<nat>,
          nextStop: nat)
  {
    && fate.stops + One(inHand) + One(HeldAt(held, plan, k)) + One(ToStop(doomed, nextStop, k)) == 1
    && (fate.late <==> closed && HeldAt(held, plan, k))
  }

  ghost predicate OwnershipInv(
      fates: seq<Fate>, inHand: bool, closed: bool, kinds: seq<Kind>, held: seq<Option<nat>>, plan: seq<nat>,
      doomed: seq<nat>, nextStop: nat)
  {
    && |kinds| == |held| && |fates| <= |plan|
    && (forall x | 0 <= x < |held| && held[x].Some? :: held[x].value < |fates| && plan[held[x].value] == x)
    && (closed ==> forall x | 0 <= x < |held| && Checked(kinds[x]) :: held[x].None?)
    && (!closed ==> doomed == [])
    && nextStop <= |doomed|
    && (forall j | 0 <= j < |doomed| :: doomed[j] < |fates|)
    && (forall i, j | 0 <= i < j < |doomed| :: doomed[i] != doomed[j])
    && (forall k | 0 <= k < |fates| ::
          FateInv(fates[k], k, inHand && k == |fates| - 1, closed, held, plan, doomed, nextStop))
  }

  /** `done` closes once, with at most one error, after everything collected was stopped. */
  ghost predicate DoneInv(closer: Option<nat>, threads: seq<Pc>, left: int, closes: nat, errors: nat) {
    && errors <= closes <= 1
    && (closer.None? ==> closes == 0)
    && (closer.Some? && closer.value < |threads| ==>
          var pc := threads[closer.value];
          && (pc.Cancelling? || pc.Stopping? || left == 0)
          && (closes == 0 <==> Closing(pc)))
  }

  ghost predicate Inv(b: Bus) {
    && |b.fates| == |b.sessions|
    && ThreadsInv(b.running, b.closed, b.starter, b.closer, b.threads)
    && PlanInv(b.starter, b.kinds, b.plan, b.orderedCount, b.got, |b.fates|, b.threads)
    && SignalsInv(b.sessions, b.orderedCount, b.channel + b.got)
    && OwnershipInv(b.fates, InHand(b.starter, b.threads), b.closed, b.kinds, b.held, b.plan, b.doomed, b.nextStop)
    && DoneInv(b.closer, b.threads, |b.doomed| - b.nextStop, b.doneCloses, b.doneErrors)
  }

  // ------------------------------------------------- signals and the barrier

  lemma {:induction false} SumUpdate(sessions: seq<Session>, s: nat, x: Session)
    requires s < |sessions|
    ensures SumSignals(sessions[s := x]) + sessions[s].signals == SumSignals(sessions) + x.signals
  {
    var last := |sessions| - 1;
    if s < last {
      SumUpdate(sessions[..last], s, x);
      assert sessions[s := x][..last] == sessions[..last][s := x];
    } else {
      assert sessions[s := x][..last] == sessions[..last];
    }
  }

  lemma SumAppend(sessions: seq<Session>, x: Session)
    ensures SumSignals(sessions + [x]) == SumSignals(sessions) + x.signals
  {
    assert (sessions + [x])[..|sessions|] == sessions;
  }

  /** Signals are bounded by the ordered sessions, and only all of them reach the bound. */
  lemma {:induction false} SumBound(sessions: seq<Session>, ordered: nat)
    requires forall k | 0 <= k < |sessions| :: sessions[k].signals <= One(k < ordered)
    ensures SumSignals(sessions) <= ordered && SumSignals(sessions) <= |sessions|
    ensures SumSignals(sessions) == ordered ==>
              ordered <= |sessions| && forall k | 0 <= k < ordered :: sessions[k].signals == 1
  {
    if sessions != [] {
      var last := |sessions| - 1;
      SumBound(sessions[..last], if ordered <= last then ordered else last);
      if SumSignals(sessions) == ordered {
        assert forall k | 0 <= k < last :: sessions[..last][k] == sessions[k];
      }
    }
  }

  lemma SignalsUpdate(sessions: seq<Session>, ordered: nat, n: nat, s: nat, x: Session)
    requires SignalsInv(sessions, ordered, n) && s < |sessions|
    requires SessionInv(x, s < ordered) && sessions[s].signals <= x.signals
    ensures SignalsInv(sessions[s := x], ordered, n + x.signals - sessions[s].signals)
  {
    hide SessionInv;
    SumUpdate(sessions, s, x);
  }

  lemma SignalsAppend(sessions: seq<Session>, ordered: nat, n: nat, x: Session)
    requires SignalsInv(sessions, ordered, n)
    requires SessionInv(x, |sessions| < ordered)
    ensures SignalsInv(sessions + [x], ordered, n + x.signals)
  {
    hide SessionInv;
    SumAppend(sessions, x);
  }

  // --------------------------------------------- where a subscription can be

  lemma CreateKeepsOwnership(
      fates: seq<Fate>, closed: bool, kinds: seq<Kind>, held: seq<Option<nat>>, plan: seq<nat>, doomed: seq<nat>,
          nextStop: nat)
    requires OwnershipInv(fates, false, closed, kinds, held, plan, doomed, nextStop)
    requires |fates| < |plan|
    ensures OwnershipInv(fates + [Fate(0, false)], true, closed, kinds, held, plan, doomed, nextStop)
  {
    var fates', n := fates + [Fate(0, false)], |fates|;
    assert !HeldAt(held, plan, n) && !ToStop(doomed, nextStop, n);
    forall k | 0 <= k < |fates'|
      ensures FateInv(fates'[k], k, k == |fates'| - 1, closed, held, plan, doomed, nextStop)
    {
      if k < n { assert FateInv(fates[k], k, false, closed, held, plan, doomed, nextStop); }
    }
  }

  /** A registration's `sub` field is still empty when its subscription is in hand. */
  lemma SlotIsFree(
      fates: seq<Fate>, closed: bool, kinds: seq<Kind>, held: seq<Option<nat>>, plan: seq<nat>, ordered: nat,
      doomed: seq<nat>, nextStop: nat)
    requires OwnershipInv(fates, true, closed, kinds, held, plan, doomed, nextStop)
    requires PlanOk(kinds, plan, ordered) && fates != []
    ensures held[plan[|fates| - 1]].None?
    ensures !HeldAt(held, plan, |fates| - 1) && !ToStop(doomed, nextStop, |fates| - 1) && fates[|fates| - 1].stops == 0
  {
    var k := |fates| - 1;
    assert FateInv(fates[k], k, true, closed, held, plan, doomed, nextStop);
  }

  lemma StoreKeepsOwnership(
      fates: seq<Fate>, closed: bool, kinds: seq<Kind>, held: seq<Option<nat>>, plan: seq<nat>, ordered: nat,
      doomed: seq<nat>, nextStop: nat)
    requires OwnershipInv(fates, true, closed, kinds, held, plan, doomed, nextStop)
    requires PlanOk(kinds, plan, ordered) && fates != []
    requires closed ==> !Checked(kinds[plan[|fates| - 1]])
    ensures
      var k := |fates| - 1;
      OwnershipInv(fates[k := fates[k].(late := closed)], false, closed, kinds, held[plan[k] := Some(k)], plan,
          doomed, nextStop)
  {
    var n := |fates| - 1;
    var fates', held' := fates[n := fates[n].(late := closed)], held[plan[n] := Some(n)];
    SlotIsFree(fates, closed, kinds, held, plan, ordered, doomed, nextStop);
    forall k | 0 <= k < |fates'| ensures FateInv(fates'[k], k, false, closed, held', plan, doomed, nextStop) {
      assert FateInv(fates[k], k, k == n, closed, held, plan, doomed, nextStop);
      if k < n {
        assert plan[k] != plan[n];
        assert HeldAt(held', plan, k) == HeldAt(held, plan, k);
      }
    }
  }

  lemma RejectKeepsOwnership(
      fates: seq<Fate>, closed: bool, kinds: seq<Kind>, held: seq<Option<nat>>, plan: seq<nat>, ordered: nat,
      doomed: seq<nat>, nextStop: nat)
    requires OwnershipInv(fates, true, closed, kinds, held, plan, doomed, nextStop)
    requires PlanOk(kinds, plan, ordered) && fates != []
    ensures OwnershipInv(StopFate(fates, |fates| - 1), false, closed, kinds, held, plan, doomed, nextStop)
  {
    var n, fates' := |fates| - 1, StopFate(fates, |fates| - 1);
    SlotIsFree(fates, closed, kinds, held, plan, ordered, doomed, nextStop);
    forall k | 0 <= k < |fates'| ensures FateInv(fates'[k], k, false, closed, held, plan, doomed, nextStop) {
      assert FateInv(fates[k], k, k == n, closed, held, plan, doomed, nextStop);
    }
  }

  lemma {:induction false} HeldSubsMembers(held: seq<Option<nat>>, k: nat)
    ensures k in HeldSubs(held) <==> exists x :: 0 <= x < |held| && held[x] == Some(k)
  {
    if held != [] {
      var last := |held| - 1;
      HeldSubsMembers(held[..last], k);
      if x :| 0 <= x < last && held[x] == Some(k) {
        assert held[..last][x] == Some(k);
      }
    }
  }

  lemma {:induction false} HeldSubsDistinct(held: seq<Option<nat>>)
    requires forall x, y | 0 <= x < y < |held| && held[x].Some? && held[y].Some? :: held[x] != held[y]
    ensures forall i, j | 0 <= i < j < |HeldSubs(held)| :: HeldSubs(held)[i] != HeldSubs(held)[j]
  {
    if held != [] {
      var last := |held| - 1;
      HeldSubsDistinct(held[..last]);
      if held[last].Some? {
        HeldSubsMembers(held[..last], held[last].value);
      }
    }
  }

  lemma CloseKeepsOwnership(
      fates: seq<Fate>, inHand: bool, kinds: seq<Kind>, held: seq<Option<nat>>, plan: seq<nat>, nextStop: nat)
    requires OwnershipInv(fates, inHand, false, kinds, held, plan, [], nextStop)
    ensures OwnershipInv(fates, inHand, true, kinds, seq(|held|, _ => None), plan, HeldSubs(held), nextStop)
  {
    var doomed, none := HeldSubs(held), seq(|held|, _ => None);
    HeldSubsDistinct(held);
    forall j | 0 <= j < |doomed| ensures doomed[j] < |fates| {
      HeldSubsMembers(held, doomed[j]);
    }
    forall k | 0 <= k < |fates|
      ensures FateInv(fates[k], k, inHand && k == |fates| - 1, true, none, plan, doomed, nextStop)
    {
      assert FateInv(fates[k], k, inHand && k == |fates| - 1, false, held, plan, [], nextStop);
      HeldSubsMembers(held, k);
      assert HeldAt(held, plan, k) <==> k in doomed;
      if k in doomed {
        var j :| 0 <= j < |doomed| && doomed[j] == k;
        assert ToStop(doomed, nextStop, k);
      }
    }
  }

  lemma StopNextKeepsOwnership(
      fates: seq<Fate>, inHand: bool, closed: bool, kinds: seq<Kind>, held: seq<Option<nat>>, plan: seq<nat>,
      doomed: seq<nat>, nextStop: nat)
    requires OwnershipInv(fates, inHand, closed, kinds, held, plan, doomed, nextStop) && nextStop < |doomed|
    ensures OwnershipInv(StopFate(fates, doomed[nextStop]), inHand, closed, kinds, held, plan, doomed, nextStop + 1)
  {
    var s := doomed[nextStop];
    var fates' := StopFate(fates, s);
    forall k | 0 <= k < |fates'|
      ensures FateInv(fates'[k], k, inHand && k == |fates'| - 1, closed, held, plan, doomed, nextStop + 1)
    {
      assert FateInv(fates[k], k, inHand && k == |fates| - 1, closed, held, plan, doomed, nextStop);
      if k == s {
        assert ToStop(doomed, nextStop, k) && !ToStop(doomed, nextStop + 1, k);
      } else if ToStop(doomed, nextStop, k) {
        var j :| nextStop <= j < |doomed| && doomed[j] == k;
        assert ToStop(doomed, nextStop + 1, k);
      }
    }
  }

  // ------------------------------------------------------------- preservation

  /** A new call changes nothing for the others. */
  lemma CallKeepsInv(b: Bus, pc: Pc, stopErr: bool)
    requires Inv(b) && (pc.ConnectCalled? || pc.DisconnectCalled?)
    ensures Inv(b.(threads := b.threads + [pc], stopErr := stopErr))
  {
    assert InHand(b.starter, b.threads + [pc]) == InHand(b.starter, b.threads);
  }

  /** A thread moves on without touching anything else. */
  lemma MoveKeepsInv(b: Bus, t: nat, pc: Pc)
    requires Inv(b) && t < |b.threads|
    requires Active(pc) ==> b.starter == Some(t)
    requires Closing(pc) ==> b.closer == Some(t)
    requires PcPlan(pc, |b.fates|, |b.plan|, b.got, b.orderedCount)
    requires (pc.Subscribed? || pc.Rejecting?) == (b.threads[t].Subscribed? || b.threads[t].Rejecting?)
    requires Closing(pc) == Closing(b.threads[t])
    requires b.closer == Some(t) ==> pc.Cancelling? || pc.Stopping? || |b.doomed| == b.nextStop
    ensures Inv(WithPc(b, t, pc))
  {
    hide OwnershipInv, SignalsInv, PlanOk;
    assert InHand(b.starter, b.threads[t := pc]) == InHand(b.starter, b.threads);
  }

  /** Facts of the invariant parts that the step lemmas keep folded. */
  lemma OrderedComeFirst(kinds: seq<Kind>, plan: seq<nat>, ordered: nat, k: nat)
    requires PlanOk(kinds, plan, ordered) && k < |plan|
    ensures plan[k] < |kinds| && (kinds[plan[k]].Ordered? <==> k < ordered)
  {
  }

  lemma NothingDoomedWhileOpen(
      fates: seq<Fate>, inHand: bool, kinds: seq<Kind>, held: seq<Option<nat>>, plan: seq<nat>, doomed: seq<nat>,
          nextStop: nat)
    requires OwnershipInv(fates, inHand, false, kinds, held, plan, doomed, nextStop)
    ensures doomed == [] && nextStop == 0
  {
  }

  lemma StopsInRange(
      fates: seq<Fate>, inHand: bool, closed: bool, kinds: seq<Kind>, held: seq<Option<nat>>, plan: seq<nat>,
          doomed: seq<nat>, nextStop: nat)
    requires OwnershipInv(fates, inHand, closed, kinds, held, plan, doomed, nextStop)
    ensures nextStop <= |doomed|
  {
  }

  /** Before `Connect` got in there are no subscriptions, so a plan can be fixed freely. */
  lemma StartKeepsOwnership(kinds: seq<Kind>, held: seq<Option<nat>>, plan: seq<nat>, plan': seq<nat>, closed: bool,
      doomed: seq<nat>, nextStop: nat)
    requires OwnershipInv([], false, closed, kinds, held, plan, doomed, nextStop)
    ensures OwnershipInv([], false, closed, kinds, held, plan', doomed, nextStop)
  {
  }

  lemma RegisterKeepsOwnership(kinds: seq<Kind>, kind: Kind, held: seq<Option<nat>>, doomed: seq<nat>, nextStop: nat)
    requires OwnershipInv([], false, false, kinds, held, [], doomed, nextStop)
    ensures OwnershipInv([], false, false, kinds + [kind], held + [None], [], doomed, nextStop)
  {
  }

  lemma RegisterKeepsInv(b: Bus, kind: Kind)
    requires Inv(b)
    ensures Inv(DoRegister(b, kind))
  {
    if !b.closed && !b.running {
      RegisterKeepsOwnership(b.kinds, kind, b.held, b.doomed, b.nextStop);
    }
  }

  lemma EnterConnectKeepsInv(b: Bus, t: nat, plan: seq<nat>, ordered: nat)
    requires Inv(b) && Enabled(b, EnterConnect(t, plan, ordered))
    ensures Inv(DoEnterConnect(b, t, plan, ordered))
  {
    hide OwnershipInv, PlanOk;
    if b.closed || b.running {
      StopsInRange(b.fates, InHand(b.starter, b.threads), b.closed, b.kinds, b.held, b.plan, b.doomed, b.nextStop);
      MoveKeepsInv(b, t, Returned);
    } else {
      assert b.fates == [] && !InHand(b.starter, b.threads);
      StartKeepsOwnership(b.kinds, b.held, b.plan, plan, b.closed, b.doomed, b.nextStop);
      assert !InHand(Some(t), DoEnterConnect(b, t, plan, ordered).threads);
    }
  }

  /** `Connect` moves on: it is the one call past the lock, so the other calls are unaffected
      by what it has created and received. */
  lemma ConnectMoves(
      running: bool, closed: bool, starter: Option<nat>, closer: Option<nat>, threads: seq<Pc>,
      kinds: seq<Kind>, plan: seq<nat>, ordered: nat, got: nat, got': nat, created: nat, created': nat,
      left: int, closes: nat, errors: nat, t: nat, pc: Pc)
    requires ThreadsInv(running, closed, starter, closer, threads)
    requires PlanInv(starter, kinds, plan, ordered, got, created, threads)
    requires DoneInv(closer, threads, left, closes, errors)
    requires t < |threads| && Active(threads[t]) && !Closing(pc)
    requires PcPlan(pc, created', |plan|, got', ordered) && created' <= |plan| && got' <= ordered
    requires (got' > 0 ==> created' >= ordered) && (created' > ordered ==> got' == ordered)
    ensures starter == Some(t) && PlanOk(kinds, plan, ordered)
    ensures ThreadsInv(running, closed, starter, closer, threads[t := pc])
    ensures PlanInv(starter, kinds, plan, ordered, got', created', threads[t := pc])
    ensures DoneInv(closer, threads[t := pc], left, closes, errors)
    ensures InHand(starter, threads) == (threads[t].Subscribed? || threads[t].Rejecting?)
    ensures InHand(starter, threads[t := pc]) == (pc.Subscribed? || pc.Rejecting?)
  {
    hide PlanOk;
  }

  /** What `Connect` knows of its own position. */
  lemma ConnectAt(
      running: bool, closed: bool, starter: Option<nat>, closer: Option<nat>, threads: seq<Pc>,
      kinds: seq<Kind>, plan: seq<nat>, ordered: nat, got: nat, created: nat, t: nat)
    requires ThreadsInv(running, closed, starter, closer, threads)
    requires PlanInv(starter, kinds, plan, ordered, got, created, threads)
    requires t < |threads| && Active(threads[t])
    ensures starter == Some(t) && (closed <==> !running) && PlanOk(kinds, plan, ordered)
    ensures PcPlan(threads[t], created, |plan|, got, ordered) && created <= |plan| && got <= ordered
    ensures (got > 0 ==> created >= ordered) && (created > ordered ==> got == ordered)
    ensures InHand(starter, threads) == (threads[t].Subscribed? || threads[t].Rejecting?)
  {
    hide PlanOk;
  }

  /** The parts of the invariant after a subscription was created. */
  lemma SubscribeParts(b: Bus, t: nat, x: Session)
    requires Inv(b) && InRange(b) && At(b, t, Starting) && |b.fates| < |b.plan|
    requires SessionInv(x, |b.sessions| < b.orderedCount)
    ensures InHand(b.starter, b.threads[t := Subscribed])
    ensures ThreadsInv(b.running, b.closed, b.starter, b.closer, b.threads[t := Subscribed])
    ensures PlanInv(b.starter, b.kinds, b.plan, b.orderedCount, b.got, |b.fates| + 1, b.threads[t := Subscribed])
    ensures SignalsInv(b.sessions + [x], b.orderedCount, b.channel + b.got + x.signals)
    ensures OwnershipInv(b.fates + [Fate(0, false)], true, b.closed, b.kinds, b.held, b.plan, b.doomed, b.nextStop)
    ensures DoneInv(b.closer, b.threads[t := Subscribed], |b.doomed| - b.nextStop, b.doneCloses, b.doneErrors)
  {
    hide OwnershipInv, SignalsInv, PlanOk, ThreadsInv, PlanInv, DoneInv, InHand, SessionInv;
    ConnectAt(b.running, b.closed, b.starter, b.closer, b.threads, b.kinds, b.plan, b.orderedCount,
              b.got, |b.fates|, t);
    ConnectMoves(b.running, b.closed, b.starter, b.closer, b.threads, b.kinds, b.plan, b.orderedCount, b.got, b.got,
                 |b.fates|, |b.fates| + 1, |b.doomed| - b.nextStop, b.doneCloses, b.doneErrors, t, Subscribed);
    CreateKeepsOwnership(b.fates, b.closed, b.kinds, b.held, b.plan, b.doomed, b.nextStop);
    SignalsAppend(b.sessions, b.orderedCount, b.channel + b.got, x);
  }

  lemma SubscribeKeepsInv(b: Bus, t: nat, backlog: nat)
    requires Inv(b) && Enabled(b, Subscribe(t, true, backlog))
    ensures Inv(DoSubscribe(b, t, backlog))
  {
    hide OwnershipInv, SignalsInv, PlanOk, ThreadsInv, PlanInv, DoneInv, InHand, SessionInv, Opened;
    var isOrdered := b.kinds[b.plan[|b.fates|]].Ordered?;
    ConnectAt(b.running, b.closed, b.starter, b.closer, b.threads, b.kinds, b.plan, b.orderedCount,
              b.got, |b.fates|, t);
    OrderedComeFirst(b.kinds, b.plan, b.orderedCount, |b.fates|);
    OpenedIsRight(backlog, isOrdered);
    SubscribeParts(b, t, Opened(backlog, isOrdered));
    var b' := DoSubscribe(b, t, backlog);
    assert b'.channel + b'.got == b.channel + b.got + Opened(backlog, isOrdered).signals;
  }

  lemma StoreKeepsInv(b: Bus, t: nat)
    requires Inv(b) && Enabled(b, Store(t))
    ensures Inv(DoStore(b, t))
  {
    hide OwnershipInv, SignalsInv, PlanOk, ThreadsInv, PlanInv, DoneInv, InHand;
    var pc := AfterStart(|b.fates|, |b.plan|, b.got, b.orderedCount);
    var slot := b.plan[|b.fates| - 1];
    ConnectAt(b.running, b.closed, b.starter, b.closer, b.threads, b.kinds, b.plan, b.orderedCount,
              b.got, |b.fates|, t);
    SlotIsFree(b.fates, b.closed, b.kinds, b.held, b.plan, b.orderedCount, b.doomed, b.nextStop);
    var rejected := Checked(b.kinds[slot]) && !b.running;
    ConnectMoves(b.running, b.closed, b.starter, b.closer, b.threads, b.kinds, b.plan, b.orderedCount, b.got, b.got,
                 |b.fates|, |b.fates|, |b.doomed| - b.nextStop, b.doneCloses, b.doneErrors, t,
                     if rejected then Rejecting else pc);
    if !rejected {
      StoreKeepsOwnership(b.fates, b.closed, b.kinds, b.held, b.plan, b.orderedCount, b.doomed, b.nextStop);
    }
  }

  lemma StopRejectedKeepsInv(b: Bus, t: nat, fails: bool)
    requires Inv(b) && Enabled(b, StopRejected(t, fails))
    ensures Inv(DoStopRejected(b, t, fails))
  {
    hide OwnershipInv, SignalsInv, PlanOk, ThreadsInv, PlanInv, DoneInv, InHand;
    var pc := if fails then DisconnectCalled else AfterStart(|b.fates|, |b.plan|, b.got, b.orderedCount);
    ConnectAt(b.running, b.closed, b.starter, b.closer, b.threads, b.kinds, b.plan, b.orderedCount,
              b.got, |b.fates|, t);
    ConnectMoves(b.running, b.closed, b.starter, b.closer, b.threads, b.kinds, b.plan, b.orderedCount, b.got, b.got,
                 |b.fates|, |b.fates|, |b.doomed| - b.nextStop, b.doneCloses, b.doneErrors, t, pc);
    RejectKeepsOwnership(b.fates, b.closed, b.kinds, b.held, b.plan, b.orderedCount, b.doomed, b.nextStop);
  }

  lemma ReceiveKeepsInv(b: Bus, t: nat)
    requires Inv(b) && Enabled(b, Receive(t))
    ensures Inv(DoReceive(b, t))
  {
    hide OwnershipInv, SignalsInv, PlanOk, ThreadsInv, PlanInv, DoneInv, InHand;
    var pc := AfterStart(|b.fates|, |b.plan|, b.got + 1, b.orderedCount);
    ConnectAt(b.running, b.closed, b.starter, b.closer, b.threads, b.kinds, b.plan, b.orderedCount,
              b.got, |b.fates|, t);
    ConnectMoves(b.running, b.closed, b.starter, b.closer, b.threads, b.kinds, b.plan, b.orderedCount, b.got, b.got + 1,
                 |b.fates|, |b.fates|, |b.doomed| - b.nextStop, b.doneCloses, b.doneErrors, t, pc);
  }

  lemma EnterDisconnectKeepsInv(b: Bus, t: nat)
    requires Inv(b) && Enabled(b, EnterDisconnect(t))
    ensures Inv(DoEnterDisconnect(b, t))
  {
    hide OwnershipInv, SignalsInv, PlanOk;
    if b.closed {
      StopsInRange(b.fates, InHand(b.starter, b.threads), b.closed, b.kinds, b.held, b.plan, b.doomed, b.nextStop);
      MoveKeepsInv(b, t, Returned);
    } else {
      NothingDoomedWhileOpen(b.fates, InHand(b.starter, b.threads), b.kinds, b.held, b.plan, b.doomed, b.nextStop);
      CloseKeepsOwnership(b.fates, InHand(b.starter, b.threads), b.kinds, b.held, b.plan, b.nextStop);
      assert InHand(b.starter, b.threads[t := Cancelling]) == InHand(b.starter, b.threads);
    }
  }

  lemma StopNextKeepsInv(b: Bus, t: nat, fails: bool)
    requires Inv(b) && Enabled(b, StopNext(t, fails))
    ensures Inv(DoStopNext(b, t, fails))
  {
    hide OwnershipInv, SignalsInv, PlanOk;
    StopsInRange(b.fates, InHand(b.starter, b.threads), b.closed, b.kinds, b.held, b.plan, b.doomed, b.nextStop);
    if b.nextStop >= |b.doomed| {
      MoveKeepsInv(b, t, Signalling);
    } else {
      StopNextKeepsOwnership(b.fates, InHand(b.starter, b.threads), b.closed, b.kinds, b.held, b.plan, b.doomed,
          b.nextStop);
    }
  }

  lemma SignalDoneKeepsInv(b: Bus, t: nat)
    requires Inv(b) && Enabled(b, SignalDone(t))
    ensures Inv(DoSignalDone(b, t))
  {
    hide OwnershipInv, SignalsInv, PlanOk;
    assert b.closer == Some(t);
    assert InHand(b.starter, b.threads[t := Returned]) == InHand(b.starter, b.threads);
  }

  lemma SignalsAt(sessions: seq<Session>, ordered: nat, n: nat, s: nat)
    requires SignalsInv(sessions, ordered, n) && s < |sessions|
    ensures SessionInv(sessions[s], s < ordered)
  {
  }

  /** A session step that sends no signal. */
  lemma SessionStepKeepsInv(b: Bus, s: nat, x: Session)
    requires Inv(b) && s < |b.sessions|
    requires SessionInv(x, s < b.orderedCount) && x.signals == b.sessions[s].signals
    ensures Inv(WithSession(b, s, x))
  {
    hide OwnershipInv, SignalsInv, SessionInv, PlanOk, ThreadsInv, PlanInv, DoneInv, InHand;
    SignalsUpdate(b.sessions, b.orderedCount, b.channel + b.got, s, x);
  }

  lemma QuietMessageKeepsInv(b: Bus, a: Action)
    requires Inv(b) && Enabled(b, a) && (a.MessageArrives? || a.SendMessage? || a.BeginMessage?)
    ensures Inv(Next(b, a))
  {
    var x, isOrdered := b.sessions[a.s], a.s < b.orderedCount;
    SignalsAt(b.sessions, b.orderedCount, b.channel + b.got, a.s);
    hide Inv, SessionInv;
    match a
    case MessageArrives(s) =>
      ArriveKeepsSession(x, isOrdered);
      SessionStepKeepsInv(b, s, Arrive(x));
    case SendMessage(s) =>
      SendKeepsSession(x, isOrdered);
      SessionStepKeepsInv(b, s, Send(x));
    case BeginMessage(s) =>
      BeginKeepsSession(x, isOrdered);
      SessionStepKeepsInv(b, s, Begin(x));
  }

  lemma EndMessageKeepsInv(b: Bus, s: nat)
    requires Inv(b) && Enabled(b, EndMessage(s))
    ensures Inv(DoEndMessage(b, s))
  {
    hide OwnershipInv, SignalsInv, PlanOk, ThreadsInv, DoneInv, InHand, SessionInv, Handled;
    var x, isOrdered := b.sessions[s], b.kinds[b.plan[s]].Ordered?;
    OrderedComeFirst(b.kinds, b.plan, b.orderedCount, s);
    SignalsAt(b.sessions, b.orderedCount, b.channel + b.got, s);
    HandledKeepsSession(x, isOrdered);
    hide PlanInv;
    SignalsUpdate(b.sessions, b.orderedCount, b.channel + b.got, s, Handled(x, isOrdered));
  }

  lemma StepKeepsInv(b: Bus, a: Action)
    requires Inv(b) && Enabled(b, a)
    ensures Inv(Next(b, a))
  {
    hide InRange, ThreadsInv, PlanInv, DoneInv, OwnershipInv, SignalsInv, PlanOk,
      DoRegister, DoStopRejected, DoReceive, DoSignalDone, DoEnterConnect, DoSubscribe, DoStore, DoEnterDisconnect,
          DoStopNext, DoEndMessage;
    match a
    case Register(kind) => RegisterKeepsInv(b, kind);
    case CallConnect => CallKeepsInv(b, ConnectCalled, b.stopErr);
    case CallDisconnect => CallKeepsInv(b, DisconnectCalled, b.stopErr);
    case FatalError => CallKeepsInv(b, DisconnectCalled, true);
    case CancelContext =>
    case EnterConnect(t, plan, ordered) => EnterConnectKeepsInv(b, t, plan, ordered);
    case Subscribe(t, ok, backlog) =>
      if ok { SubscribeKeepsInv(b, t, backlog); } else { MoveAsideKeepsInv(b, t, DisconnectCalled); }
    case Store(t) => StoreKeepsInv(b, t);
    case StopRejected(t, fails) => StopRejectedKeepsInv(b, t, fails);
    case Receive(t) => ReceiveKeepsInv(b, t);
    case GiveUpWaiting(t) => MoveAsideKeepsInv(b, t, DisconnectCalled);
    case EnterDisconnect(t) => EnterDisconnectKeepsInv(b, t);
    case Cancel(t) => CancelKeepsInv(b, t);
    case StopNext(t, fails) => StopNextKeepsInv(b, t, fails);
    case SignalDone(t) => SignalDoneKeepsInv(b, t);
    case MessageArrives(s) => QuietMessageKeepsInv(b, a);
    case SendMessage(s) => QuietMessageKeepsInv(b, a);
    case BeginMessage(s) => QuietMessageKeepsInv(b, a);
    case EndMessage(s) => EndMessageKeepsInv(b, s);
  }

  lemma MoveAsideKeepsInv(b: Bus, t: nat, pc: Pc)
    requires Inv(b) && (At(b, t, Starting) || At(b, t, Waiting)) && pc.DisconnectCalled?
    ensures Inv(WithPc(b, t, pc))
  {
    MoveKeepsInv(b, t, pc);
  }

  lemma CancelKeepsInv(b: Bus, t: nat)
    requires Inv(b) && At(b, t, Cancelling)
    ensures Inv(WithPc(b.(cancelled := true), t, Stopping))
  {
    MoveKeepsInv(b.(cancelled := true), t, Stopping);
  }

  lemma {:induction false} RunKeepsInv(acts: seq<Action>)
    ensures Inv(Run(acts))
  {
    if acts != [] {
      RunKeepsInv(acts[..|acts| - 1]);
      var b := Run(acts[..|acts| - 1]);
      if Enabled(b, acts[|acts| - 1]) {
        StepKeepsInv(b, acts[|acts| - 1]);
      }
    }
  }

  // ------------------------------------------------------------- whole runs

  /** The barrier's channel is never full when a session sends, so no send blocks. */
  lemma SendsNeverBlock(acts: seq<Action>)
    ensures var b := Run(acts); b.channel + b.got <= b.orderedCount
  {
    var b := Run(acts);
    RunKeepsInv(acts);
    SumBound(b.sessions, b.orderedCount);
  }

  /** In no run does a command, query or queue subscription exist before every ordered group
      was subscribed, its handlers have returned from every message that was in the stream
      when it subscribed, and it has signalled exactly once. */
  lemma BarrierHolds(acts: seq<Action>, k: nat, j: nat)
    ensures
      var b := Run(acts);
      && InRange(b)
      && (k < |b.fates| && !b.kinds[b.plan[k]].Ordered? && j < |b.plan| && b.kinds[b.plan[j]].Ordered? ==>
            j < |b.sessions| && b.sessions[j].ended >= b.sessions[j].backlog && b.sessions[j].signals == 1)
  {
    var b := Run(acts);
    RunKeepsInv(acts);
    InvIsInRange(b);
    if k < |b.fates| && !b.kinds[b.plan[k]].Ordered? && j < |b.plan| && b.kinds[b.plan[j]].Ordered? {
      OrderedComeFirst(b.kinds, b.plan, b.orderedCount, k);
      OrderedComeFirst(b.kinds, b.plan, b.orderedCount, j);
      SumBound(b.sessions, b.orderedCount);
      SignalsAt(b.sessions, b.orderedCount, b.channel + b.got, j);
    }
  }

  /** What a session counts as handled is what it has begun and ended, in order; it never
      signals while a message of its backlog is unsent, waiting or being handled. */
  lemma SignalMeansBacklogHandled(acts: seq<Action>, k: nat)
    requires k < |Run(acts).sessions|
    ensures
      var x := Run(acts).sessions[k];
      && x.sent == x.ended + One(x.handling.Some?) + |x.inbox| <= x.arrived
      && (x.signals == 0 || (x.signals == 1 && x.backlog <= x.ended))
  {
    RunKeepsInv(acts);
    var b := Run(acts);
    SignalsAt(b.sessions, b.orderedCount, b.channel + b.got, k);
  }

  /** Commands start before queries and both before queue groups: when one of the later kind has
      its subscription, all of the earlier kinds have theirs. */
  lemma StartOrder(acts: seq<Action>, k: nat, j: nat)
    ensures
      var b := Run(acts);
      && InRange(b)
      && (k < |b.fates| && j < |b.plan| ==>
            var later, earlier := b.kinds[b.plan[k]], b.kinds[b.plan[j]];
            && (later.QueryReg? && earlier.CommandReg? ==> j < |b.fates|)
            && (later.Queue? && (earlier.CommandReg? || earlier.QueryReg?) ==> j < |b.fates|))
  {
    var b := Run(acts);
    RunKeepsInv(acts);
    InvIsInRange(b);
    hide Run;
    if k < |b.fates| && j < |b.plan| && k < j {
      RankedPlan(b.kinds, b.plan, b.orderedCount, k, j);
    }
    hide Inv;
  }

  lemma RankedPlan(kinds: seq<Kind>, plan: seq<nat>, ordered: nat, k: nat, j: nat)
    requires PlanOk(kinds, plan, ordered) && k < j < |plan|
    ensures plan[k] < |kinds| && plan[j] < |kinds| && Rank(kinds[plan[k]]) <= Rank(kinds[plan[j]])
  {
  }

  lemma {:induction false} SumFull(sessions: seq<Session>)
    requires forall k | 0 <= k < |sessions| :: sessions[k].signals == 1
    ensures SumSignals(sessions) == |sessions|
  {
    if sessions != [] {
      SumFull(sessions[..|sessions| - 1]);
    }
  }

  /** Nor does the barrier stay shut: once every session has handled all that has arrived, a
      waiting `Connect` has a signal to receive. */
  lemma BarrierOpens(acts: seq<Action>, t: nat)
    requires At(Run(acts), t, Waiting)
    requires forall k | 0 <= k < |Run(acts).sessions| :: Run(acts).sessions[k].ended == Run(acts).sessions[k].arrived
    ensures Enabled(Run(acts), Receive(t))
  {
    var b := Run(acts);
    RunKeepsInv(acts);
    assert PcPlan(b.threads[t], |b.fates|, |b.plan|, b.got, b.orderedCount);
    forall k | 0 <= k < |b.sessions| ensures b.sessions[k].signals == 1 {
      SignalsAt(b.sessions, b.orderedCount, b.channel + b.got, k);
      DrainedHasSignalled(b.sessions[k]);
    }
    SumFull(b.sessions);
    InvIsInRange(b);
  }

  ghost predicate AllReturned(b: Bus) {
    forall t | 0 <= t < |b.threads| :: b.threads[t].Returned?
  }

  /** Once the bus is closed and all calls have returned, every subscription ever created
      was stopped exactly once, except those stored after the bus had closed: these were never
      stopped, are still held, and belong to command or query registrations. */
  lemma ClosedBusStopsEverything(acts: seq<Action>, k: nat)
    requires Run(acts).closed && AllReturned(Run(acts)) && k < |Run(acts).fates|
    ensures
      var b := Run(acts);
      && InRange(b)
      && b.fates[k].stops == (if b.fates[k].late then 0 else 1)
      && (b.fates[k].late <==> b.held[b.plan[k]] == Some(k))
      && (b.fates[k].late ==> b.kinds[b.plan[k]].CommandReg? || b.kinds[b.plan[k]].QueryReg?)
  {
    var b := Run(acts);
    RunKeepsInv(acts);
    InvIsInRange(b);
    assert FateInv(b.fates[k], k, false, b.closed, b.held, b.plan, b.doomed, b.nextStop);
    assert !ToStop(b.doomed, b.nextStop, k);
    assert HeldAt(b.held, b.plan, k) ==> !Checked(b.kinds[b.plan[k]]);
  }

  /** `Connect` is over and nothing was stored on a closed bus. */
  ghost predicate Quiet(starter: Option<nat>, threads: seq<Pc>, fates: seq<Fate>) {
    && starter.Some?
    && (forall t | 0 <= t < |threads| :: !Active(threads[t]))
    && (forall k | 0 <= k < |fates| :: !fates[k].late)
  }

  ghost predicate Settled(b: Bus) {
    Quiet(b.starter, b.threads, b.fates)
  }

  lemma QuietMove(starter: Option<nat>, threads: seq<Pc>, fates: seq<Fate>, t: nat, pc: Pc)
    requires Quiet(starter, threads, fates) && t < |threads| && !Active(pc)
    ensures Quiet(starter, threads[t := pc], fates)
  {
  }

  lemma QuietStop(starter: Option<nat>, threads: seq<Pc>, fates: seq<Fate>, k: nat)
    requires Quiet(starter, threads, fates) && k < |fates|
    ensures Quiet(starter, threads, StopFate(fates, k))
  {
  }

  lemma QuietSteps(b: Bus, t: nat)
    requires Settled(b) && InRange(b) && t < |b.threads|
    ensures Settled(DoEnterDisconnect(b, t)) && Settled(DoSignalDone(b, t))
  {
    hide HeldSubs, Quiet, InRange;
    QuietMove(b.starter, b.threads, b.fates, t, Returned);
    QuietMove(b.starter, b.threads, b.fates, t, Cancelling);
  }

  lemma StopNextKeepsSettled(b: Bus, t: nat, fails: bool)
    requires Settled(b) && InRange(b) && t < |b.threads|
    ensures Settled(DoStopNext(b, t, fails))
  {
    hide Quiet;
    if b.nextStop >= |b.doomed| {
      QuietMove(b.starter, b.threads, b.fates, t, Signalling);
    } else {
      QuietStop(b.starter, b.threads, b.fates, b.doomed[b.nextStop]);
    }
  }

  lemma MessageKeepsSettled(b: Bus, a: Action)
    requires Settled(b) && Enabled(b, a)
    requires a.MessageArrives? || a.SendMessage? || a.BeginMessage? || a.EndMessage?
    ensures Settled(Next(b, a))
  {
    hide Quiet, InRange;
  }

  /** With `Connect` over, its steps are not enabled. */
  lemma ConnectIsOver(b: Bus, a: Action)
    requires Settled(b) && Enabled(b, a)
    ensures !a.Subscribe? && !a.Store? && !a.StopRejected? && !a.Receive? && !a.GiveUpWaiting?
  {
    hide InRange;
  }

  lemma CallKeepsSettled(b: Bus, a: Action)
    requires (b.running || b.closed) && Settled(b) && Enabled(b, a)
    requires a.Register? || a.CallConnect? || a.CallDisconnect? || a.FatalError? || a.CancelContext? || a.EnterConnect?
    ensures Settled(Next(b, a))
  {
    hide PlanOk, InRange, Quiet, AfterStart;
    QuietCall(b, ConnectCalled);
    QuietCall(b, DisconnectCalled);
    if a.EnterConnect? {
      QuietMove(b.starter, b.threads, b.fates, a.t, Returned);
    }
  }

  lemma DisconnectKeepsSettled(b: Bus, a: Action)
    requires Settled(b) && Enabled(b, a)
    requires a.EnterDisconnect? || a.Cancel? || a.StopNext? || a.SignalDone?
    ensures Settled(Next(b, a))
  {
    hide PlanOk, InRange, Quiet, DoEnterDisconnect, DoStopNext, DoSignalDone;
    match a
    case EnterDisconnect(t) => QuietSteps(b, t);
    case Cancel(t) => QuietMove(b.starter, b.threads, b.fates, t, Stopping);
    case StopNext(t, fails) => StopNextKeepsSettled(b, t, fails);
    case SignalDone(t) => QuietSteps(b, t);
  }

  lemma StepKeepsSettled(b: Bus, a: Action)
    requires Inv(b) && Settled(b) && Enabled(b, a)
    ensures Settled(Next(b, a))
  {
    assert b.running || b.closed;
    hide Inv, Next, Enabled, Settled;
    ConnectIsOver(b, a);
    if a.MessageArrives? || a.SendMessage? || a.BeginMessage? || a.EndMessage? {
      MessageKeepsSettled(b, a);
    } else if a.EnterDisconnect? || a.Cancel? || a.StopNext? || a.SignalDone? {
      DisconnectKeepsSettled(b, a);
    } else {
      CallKeepsSettled(b, a);
    }
  }

  lemma QuietCall(b: Bus, pc: Pc)
    requires Settled(b) && !Active(pc)
    ensures Quiet(b.starter, b.threads + [pc], b.fates)
  {
  }

  lemma {:induction false} RunKeepsSettled(before: seq<Action>, after: seq<Action>)
    requires Settled(Run(before))
    ensures Settled(Run(before + after))
  {
    hide Next, Enabled, Settled, Inv;
    if after == [] {
      assert before + after == before;
    } else {
      var a := after[|after| - 1];
      var acts := before + after[..|after| - 1];
      RunKeepsSettled(before, after[..|after| - 1]);
      RunKeepsInv(acts);
      RunSnoc(acts, a);
      assert before + after == acts + [a];
      if Enabled(Run(acts), a) {
        StepKeepsSettled(Run(acts), a);
      }
    }
  }

  /** If `Connect` had returned while the bus was open, then closing it later stops every
      subscription exactly once: only an overlap of the two can lose one. */
  lemma NoOverlapStopsEverything(before: seq<Action>, after: seq<Action>, k: nat)
    requires var b := Run(before); b.running && forall t | 0 <= t < |b.threads| :: !Active(b.threads[t])
    requires var b := Run(before + after); b.closed && AllReturned(b) && k < |b.fates|
    ensures Run(before + after).fates[k].stops == 1
  {
    var b := Run(before);
    RunKeepsInv(before);
    forall j | 0 <= j < |b.fates| ensures !b.fates[j].late {
      assert FateInv(b.fates[j], j, InHand(b.starter, b.threads)
          && j == |b.fates| - 1, b.closed, b.held, b.plan, b.doomed, b.nextStop);
    }
    RunKeepsSettled(before, after);
    ClosedBusStopsEverything(before + after, k);
  }

  /** `done` closes at most once and carries at most one error, and has closed whenever the
      bus is closed and all calls have returned. */
  lemma DoneClosesOnce(acts: seq<Action>)
    ensures var b := Run(acts); b.doneErrors <= b.doneCloses <= 1
    ensures var b := Run(acts); b.closed && AllReturned(b) ==> b.doneCloses == 1
  {
    RunKeepsInv(acts);
  }

  lemma RunSnoc(acts: seq<Action>, a: Action)
    ensures Run(acts + [a]) == if Enabled(Run(acts), a) then Next(Run(acts), a) else Run(acts)
  {
    assert (acts + [a])[..|acts|] == acts;
  }

  /** No way back from closed, and no new registration once running or closed. */
  predicate Later(b: Bus, b': Bus) {
    && (b.closed ==> b'.closed)
    && (b.running || b.closed ==> b'.kinds == b.kinds && (b'.running || b'.closed))
  }

  lemma SessionStepsAreLater(b: Bus, t: nat, backlog: nat)
    ensures Enabled(b, EndMessage(t)) ==> Later(b, DoEndMessage(b, t))
    ensures Enabled(b, Subscribe(t, true, backlog)) ==> Later(b, DoSubscribe(b, t, backlog))
  {
    hide PlanOk, InRange;
  }

  lemma ConnectStepsAreLater(b: Bus, t: nat, plan: seq<nat>, ordered: nat)
    ensures Enabled(b, EnterConnect(t, plan, ordered)) ==> Later(b, DoEnterConnect(b, t, plan, ordered))
    ensures Enabled(b, Store(t)) ==> Later(b, DoStore(b, t))
  {
    hide PlanOk, InRange, AfterStart;
  }

  lemma DisconnectStepsAreLater(b: Bus, t: nat, fails: bool)
    ensures Enabled(b, EnterDisconnect(t)) ==> Later(b, DoEnterDisconnect(b, t))
    ensures Enabled(b, StopNext(t, fails)) ==> Later(b, DoStopNext(b, t, fails))
    ensures Enabled(b, SignalDone(t)) ==> Later(b, DoSignalDone(b, t))
  {
    hide HeldSubs, StopFate;
  }

  lemma StepIsLater(b: Bus, a: Action)
    requires Enabled(b, a)
    ensures Later(b, Next(b, a))
  {
    hide PlanOk, InRange, AfterStart, StopFate,
      DoEndMessage, DoSubscribe, DoEnterConnect, DoStore, DoEnterDisconnect, DoStopNext, DoSignalDone;
    match a
    case EnterConnect(t, plan, ordered) => ConnectStepsAreLater(b, t, plan, ordered);
    case Subscribe(t, ok, backlog) => SessionStepsAreLater(b, t, backlog);
    case Store(t) => ConnectStepsAreLater(b, t, [], 0);
    case EnterDisconnect(t) => DisconnectStepsAreLater(b, t, false);
    case StopNext(t, fails) => DisconnectStepsAreLater(b, t, fails);
    case SignalDone(t) => DisconnectStepsAreLater(b, t, false);
    case EndMessage(s) => SessionStepsAreLater(b, s, 0);
    case _ =>
  }

  /** A closed bus stays closed, and registrations are frozen from the first `Connect` or
      `Disconnect` on. */
  lemma {:induction false} ClosedForeverAndFrozen(before: seq<Action>, after: seq<Action>)
    ensures Run(before).closed ==> Run(before + after).closed && !Run(before + after).running
    ensures
      var b, b' := Run(before), Run(before + after);
      b.running || b.closed ==> b'.kinds == b.kinds && (b'.running || b'.closed)
  {
    RunKeepsInv(before + after);
    hide Next, Enabled;
    if after == [] {
      assert before + after == before;
    } else {
      var acts, a := before + after[..|after| - 1], after[|after| - 1];
      ClosedForeverAndFrozen(before, after[..|after| - 1]);
      RunSnoc(acts, a);
      assert before + after == acts + [a];
      if Enabled(Run(acts), a) { StepIsLater(Run(acts), a); }
    }
  }

  lemma InvIsInRange(b: Bus)
    requires Inv(b)
    ensures InRange(b)
  {
  }

  // ------------------------------------------------------------ a complete Connect

  /** While the bus is open nothing was stopped, and a `Connect` that is over has either created
      every subscription or is on its way to disconnect. */
  ghost predicate OpenInv(
      running: bool, closed: bool, starter: Option<nat>, threads: seq<Pc>, fates: seq<Fate>, planned: nat)
  {
    && (!closed ==> forall k | 0 <= k < |fates| :: fates[k].stops == 0)
    && (!closed ==> forall t | 0 <= t < |threads| :: !threads[t].Rejecting?)
    && (running && starter.Some? && starter.value < |threads| ==>
          var pc := threads[starter.value];
          Active(pc) || pc.DisconnectCalled? || (pc.Returned? && |fates| == planned))
  }

  lemma OpenMove(
      running: bool, closed: bool, starter: Option<nat>, threads: seq<Pc>, fates: seq<Fate>, planned: nat, t: nat,
      pc: Pc)
    requires OpenInv(running, closed, starter, threads, fates, planned) && t < |threads|
    requires pc.Rejecting? ==> closed
    requires running && starter == Some(t) ==>
               Active(pc) || pc.DisconnectCalled? || (pc.Returned? && |fates| == planned)
    ensures OpenInv(running, closed, starter, threads[t := pc], fates, planned)
  {
  }

  lemma OpenCall(
      running: bool, closed: bool, starter: Option<nat>, threads: seq<Pc>, fates: seq<Fate>, planned: nat, pc: Pc)
    requires OpenInv(running, closed, starter, threads, fates, planned)
    requires (starter.Some? ==> starter.value < |threads|) && !pc.Rejecting?
    ensures OpenInv(running, closed, starter, threads + [pc], fates, planned)
  {
  }

  /** On a closed bus there is nothing to say. */
  lemma ClosedIsOpenInv(starter: Option<nat>, threads: seq<Pc>, fates: seq<Fate>, planned: nat)
    ensures OpenInv(false, true, starter, threads, fates, planned)
  {
  }

  ghost predicate Open(b: Bus) {
    OpenInv(b.running, b.closed, b.starter, b.threads, b.fates, |b.plan|)
  }

  lemma EnterConnectKeepsOpen(b: Bus, t: nat, plan: seq<nat>, ordered: nat)
    requires Inv(b) && Open(b) && Enabled(b, EnterConnect(t, plan, ordered))
    ensures Open(DoEnterConnect(b, t, plan, ordered))
  {
    hide OwnershipInv, SignalsInv, DoneInv, PlanOk;
    if b.closed || b.running {
      OpenMove(b.running, b.closed, b.starter, b.threads, b.fates, |b.plan|, t, Returned);
    }
  }

  lemma SubscribeKeepsOpen(b: Bus, t: nat, backlog: nat)
    requires Inv(b) && Open(b) && Enabled(b, Subscribe(t, true, backlog))
    ensures Open(DoSubscribe(b, t, backlog))
  {
    ConnectAt(b.running, b.closed, b.starter, b.closer, b.threads, b.kinds, b.plan, b.orderedCount,
              b.got, |b.fates|, t);
    hide Inv, PlanOk, PlanInv, ThreadsInv;
    var b' := DoSubscribe(b, t, backlog);
    assert b'.running == b.running && b'.closed == b.closed && b'.starter == b.starter && b'.plan == b.plan;
  }

  lemma StoreKeepsOpen(b: Bus, t: nat)
    requires Inv(b) && Open(b) && Enabled(b, Store(t))
    ensures Open(DoStore(b, t))
  {
    hide OwnershipInv, SignalsInv, DoneInv, PlanOk, OpenInv;
    ConnectAt(b.running, b.closed, b.starter, b.closer, b.threads, b.kinds, b.plan, b.orderedCount,
              b.got, |b.fates|, t);
    hide PlanInv, ThreadsInv;
    SlotIsFree(b.fates, b.closed, b.kinds, b.held, b.plan, b.orderedCount, b.doomed, b.nextStop);
    var pc := DoStore(b, t).threads[t];
    OpenMove(b.running, b.closed, b.starter, b.threads, b.fates, |b.plan|, t, pc);
    var n := |b.fates| - 1;
    LateKeepsOpen(b.running, b.closed, b.starter, b.threads[t := pc], b.fates, |b.plan|, n, b.closed);
  }

  lemma LateKeepsOpen(
      running: bool, closed: bool, starter: Option<nat>, threads: seq<Pc>, fates: seq<Fate>, planned: nat, k: nat,
      late: bool)
    requires OpenInv(running, closed, starter, threads, fates, planned) && k < |fates|
    ensures OpenInv(running, closed, starter, threads, fates[k := fates[k].(late := late)], planned)
  {
  }

  lemma ReceiveKeepsOpen(b: Bus, t: nat)
    requires Inv(b) && Open(b) && Enabled(b, Receive(t))
    ensures Open(DoReceive(b, t))
  {
    hide OwnershipInv, SignalsInv, DoneInv, PlanOk, OpenInv;
    ConnectAt(b.running, b.closed, b.starter, b.closer, b.threads, b.kinds, b.plan, b.orderedCount,
              b.got, |b.fates|, t);
    hide PlanInv, ThreadsInv;
    OpenMove(b.running, b.closed, b.starter, b.threads, b.fates, |b.plan|, t, DoReceive(b, t).threads[t]);
  }

  /** Whoever is rejecting, stopping or signalling does so on a closed bus. */
  lemma OnClosedBus(b: Bus, t: nat)
    requires Inv(b) && Open(b) && t < |b.threads| && (b.threads[t].Rejecting? || Closing(b.threads[t]))
    ensures b.closed && !b.running
  {
    hide OwnershipInv, SignalsInv, DoneInv, PlanOk, PlanInv;
  }

  lemma CallKeepsOpen(b: Bus, pc: Pc)
    requires Inv(b) && Open(b) && !pc.Rejecting?
    ensures OpenInv(b.running, b.closed, b.starter, b.threads + [pc], b.fates, |b.plan|)
  {
    hide OwnershipInv, SignalsInv, DoneInv, PlanOk, PlanInv;
    OpenCall(b.running, b.closed, b.starter, b.threads, b.fates, |b.plan|, pc);
  }

  lemma AsideKeepsOpen(b: Bus, t: nat)
    requires Inv(b) && Open(b) && t < |b.threads|
    ensures Open(WithPc(b, t, DisconnectCalled))
  {
    hide OpenInv, Inv;
    OpenMove(b.running, b.closed, b.starter, b.threads, b.fates, |b.plan|, t, DisconnectCalled);
  }

  lemma StepKeepsOpen(b: Bus, a: Action)
    requires Inv(b) && Open(b) && Enabled(b, a)
    ensures Open(Next(b, a))
  {
    hide Inv, InRange, PlanOk, OpenInv, DoEnterConnect, DoSubscribe, DoStore, DoReceive, StopFate, HeldSubs, AfterStart;
    match a
    case CallConnect => CallKeepsOpen(b, ConnectCalled);
    case CallDisconnect => CallKeepsOpen(b, DisconnectCalled);
    case FatalError => CallKeepsOpen(b, DisconnectCalled);
    case EnterConnect(t, plan, ordered) => EnterConnectKeepsOpen(b, t, plan, ordered);
    case Subscribe(t, ok, backlog) => if ok { SubscribeKeepsOpen(b, t, backlog); } else { AsideKeepsOpen(b, t); }
    case Store(t) => StoreKeepsOpen(b, t);
    case Receive(t) => ReceiveKeepsOpen(b, t);
    case GiveUpWaiting(t) => AsideKeepsOpen(b, t);
    case StopRejected(t, _) => ClosedStepIsOpen(b, a);
    case EnterDisconnect(t) => ClosedStepIsOpen(b, a);
    case Cancel(t) => ClosedStepIsOpen(b, a);
    case StopNext(t, _) => ClosedStepIsOpen(b, a);
    case SignalDone(t) => ClosedStepIsOpen(b, a);
    case _ =>
  }

  lemma ClosedStepIsOpen(b: Bus, a: Action)
    requires Inv(b) && Open(b) && Enabled(b, a)
    requires a.StopRejected? || a.EnterDisconnect? || a.Cancel? || a.StopNext? || a.SignalDone?
    ensures Open(Next(b, a))
  {
    if !a.EnterDisconnect? {
      OnClosedBus(b, a.t);
    } else {
      assert b.closed ==> !b.running;
    }
    hide Inv, InRange, PlanOk, OpenInv, StopFate, HeldSubs, AfterStart;
    var b' := Next(b, a);
    assert b'.closed && !b'.running;
    ClosedIsOpenInv(b'.starter, b'.threads, b'.fates, |b'.plan|);
  }

  lemma {:induction false} RunKeepsOpen(acts: seq<Action>)
    ensures Open(Run(acts))
  {
    if acts != [] {
      var b, a := Run(acts[..|acts| - 1]), acts[|acts| - 1];
      RunKeepsOpen(acts[..|acts| - 1]);
      RunKeepsInv(acts[..|acts| - 1]);
      hide Next, Enabled, Open, Inv;
      if Enabled(b, a) {
        StepKeepsOpen(b, a);
      }
    }
  }

  function Values(plan: seq<nat>): set<nat> {
    set i | 0 <= i < |plan| :: plan[i]
  }

  lemma {:induction false} DistinctValues(plan: seq<nat>)
    requires forall i, j | 0 <= i < j < |plan| :: plan[i] != plan[j]
    ensures |Values(plan)| == |plan|
  {
    if plan != [] {
      var last := |plan| - 1;
      DistinctValues(plan[..last]);
      assert Values(plan) == Values(plan[..last]) + {plan[last]};
      assert plan[last] !in Values(plan[..last]);
    }
  }

  lemma {:induction false} BelowBound(s: set<nat>, n: nat)
    requires forall x | x in s :: x < n
    ensures |s| <= n
  {
    if n > 0 {
      BelowBound(s - {n - 1}, n - 1);
    } else {
      assert s == {};
    }
  }

  lemma {:induction false} FullBelowBound(s: set<nat>, n: nat, x: nat)
    requires (forall y | y in s :: y < n) && |s| == n && x < n
    ensures x in s
    decreases n
  {
    if x !in s {
      if x == n - 1 {
        BelowBound(s, n - 1);
      } else if n - 1 in s {
        FullBelowBound(s - {n - 1}, n - 1, x);
      } else {
        BelowBound(s, n - 1);
      }
    }
  }

  /** A plan is a permutation of the registrations. */
  lemma PlanCoversAll(kinds: seq<Kind>, plan: seq<nat>, ordered: nat, x: nat)
    requires PlanOk(kinds, plan, ordered) && x < |kinds|
    ensures exists k :: 0 <= k < |plan| && plan[k] == x
  {
    DistinctValues(plan);
    FullBelowBound(Values(plan), |plan|, x);
  }

  /** MAIN RESULT: in every run, if the bus is running and the call of `Connect` that started it
      has returned, then every registration has its subscription, stored and not stopped. */
  lemma ConnectStartsEverything(acts: seq<Action>, t: nat, x: nat)
    requires Run(acts).running && Run(acts).starter == Some(t) && At(Run(acts), t, Returned)
    requires x < |Run(acts).kinds|
    ensures
      var b := Run(acts);
      && |b.fates| == |b.plan| == |b.kinds| == |b.held|
      && (forall k | 0 <= k < |b.plan| :: b.plan[k] < |b.held| && b.held[b.plan[k]] == Some(k) && b.fates[k].stops == 0)
      && b.held[x].Some?
  {
    var b := Run(acts);
    RunKeepsInv(acts);
    RunKeepsOpen(acts);
    hide Run;
    PlanCoversAll(b.kinds, b.plan, b.orderedCount, x);
    assert !InHand(b.starter, b.threads) && !b.closed && |b.fates| == |b.plan|;
    forall k | 0 <= k < |b.plan|
      ensures b.plan[k] < |b.held| && b.held[b.plan[k]] == Some(k) && b.fates[k].stops == 0
    {
      AllHeld(b.fates, b.kinds, b.held, b.plan, b.doomed, b.nextStop, k);
    }
  }

  lemma AllHeld(
      fates: seq<Fate>, kinds: seq<Kind>, held: seq<Option<nat>>, plan: seq<nat>, doomed: seq<nat>, nextStop: nat,
      k: nat)
    requires OwnershipInv(fates, false, false, kinds, held, plan, doomed, nextStop)
    requires k < |fates| && fates[k].stops == 0
    ensures HeldAt(held, plan, k)
  {
    assert FateInv(fates[k], k, false, false, held, plan, doomed, nextStop);
  }

  // ------------------------------------------------------- calls do what they say

  /** A call's own steps move its thread only. */
  predicate MovesOnly(b: Bus, b': Bus, t: nat) {
    |b'.threads| == |b.threads| && forall u | 0 <= u < |b.threads| && u != t :: b'.threads[u] == b.threads[u]
  }

  lemma ConnectMovesOnly(b: Bus, a: Action)
    requires Enabled(b, a) && (a.EnterConnect? || a.Subscribe? || a.Store? || a.StopRejected? || a.Receive?)
    ensures MovesOnly(b, Next(b, a), a.t)
  {
    hide InRange, PlanOk, StopFate, AfterStart, Opened;
  }

  lemma DisconnectMovesOnly(b: Bus, a: Action)
    requires Enabled(b, a)
    requires a.GiveUpWaiting? || a.EnterDisconnect? || a.Cancel? || a.StopNext? || a.SignalDone?
    ensures MovesOnly(b, Next(b, a), a.t)
  {
    hide InRange, PlanOk, StopFate, HeldSubs;
  }

  lemma OthersMoveNobody(b: Bus, a: Action)
    requires Enabled(b, a)
    requires a.Register? || a.CallConnect? || a.CallDisconnect? || a.FatalError? || a.CancelContext? ||
             a.MessageArrives? || a.SendMessage? || a.BeginMessage? || a.EndMessage?
    ensures b.threads <= Next(b, a).threads
  {
    hide InRange, PlanOk, Arrive, Send, Begin, Handled;
  }

  lemma EnteringTakesEffect(b: Bus, a: Action)
    requires Enabled(b, a)
    ensures a.EnterConnect? ==> Next(b, a).running || Next(b, a).closed
    ensures a.EnterDisconnect? ==> Next(b, a).closed
  {
    hide InRange, PlanOk, HeldSubs, AfterStart;
  }

  lemma OnlyEnteringLeaves(b: Bus, a: Action, t: nat)
    requires Enabled(b, a) && t < |b.threads|
    ensures |b.threads| <= |Next(b, a).threads|
    ensures At(b, t, ConnectCalled) && !At(Next(b, a), t, ConnectCalled) ==> a.EnterConnect?
    ensures At(b, t, DisconnectCalled) && !At(Next(b, a), t, DisconnectCalled) ==> a.EnterDisconnect?
  {
    if a.EnterConnect? || a.Subscribe? || a.Store? || a.StopRejected? || a.Receive? {
      ConnectMovesOnly(b, a);
    } else if a.GiveUpWaiting? || a.EnterDisconnect? || a.Cancel? || a.StopNext? || a.SignalDone? {
      DisconnectMovesOnly(b, a);
    } else {
      OthersMoveNobody(b, a);
    }
    hide Next, InRange;
  }

  /** A step past the lock: `Connect` leaves the bus running or finds it running or closed,
      `Disconnect` leaves it closed. */
  lemma StepTakesEffect(b: Bus, a: Action, t: nat)
    requires Enabled(b, a) && t < |b.threads|
    ensures |b.threads| <= |Next(b, a).threads|
    ensures At(b, t, ConnectCalled) && !At(Next(b, a), t, ConnectCalled) ==> Next(b, a).running || Next(b, a).closed
    ensures At(b, t, DisconnectCalled) && !At(Next(b, a), t, DisconnectCalled) ==> Next(b, a).closed
  {
    hide Next, Enabled, At;
    OnlyEnteringLeaves(b, a, t);
    EnteringTakesEffect(b, a);
  }

  lemma {:induction false} CallTakesEffect(acts: seq<Action>, more: seq<Action>, t: nat)
    requires t < |Run(acts).threads|
    ensures
      var b, b' := Run(acts), Run(acts + more);
      && t < |b'.threads|
      && (At(b, t, ConnectCalled) && !At(b', t, ConnectCalled) ==> b'.running || b'.closed)
      && (At(b, t, DisconnectCalled) && !At(b', t, DisconnectCalled) ==> b'.closed)
    decreases |more|
  {
    hide Next, Enabled;
    if more == [] {
      assert acts + more == acts;
    } else {
      var now, a := acts + more[..|more| - 1], more[|more| - 1];
      assert acts + more == now + [a];
      CallTakesEffect(acts, more[..|more| - 1], t);
      RunSnoc(now, a);
      if Enabled(Run(now), a) {
        StepTakesEffect(Run(now), a, t);
        StepIsLater(Run(now), a);
      }
    }
  }

  lemma {:induction false} SplitByRank(kinds: seq<Kind>, plan: seq<nat>, r: nat) returns (p: nat)
    requires forall i | 0 <= i < |plan| :: plan[i] < |kinds|
    requires forall i, j | 0 <= i < j < |plan| :: Rank(kinds[plan[i]]) <= Rank(kinds[plan[j]])
    ensures p <= |plan|
    ensures forall i | 0 <= i < p :: Rank(kinds[plan[i]]) <= r
    ensures forall i | p <= i < |plan| :: Rank(kinds[plan[i]]) > r
  {
    if plan == [] || Rank(kinds[plan[|plan| - 1]]) <= r {
      p := |plan|;
    } else {
      p := SplitByRank(kinds, plan[..|plan| - 1], r);
    }
  }

  /** There is an order to start in, whatever is registered. */
  lemma {:induction false} PlanExists(kinds: seq<Kind>) returns (plan: seq<nat>, ordered: nat)
    ensures PlanOk(kinds, plan, ordered)
  {
    if kinds == [] {
      return [], 0;
    }
    var n := |kinds| - 1;
    var before, o := PlanExists(kinds[..n]);
    assert forall i | 0 <= i < |before| :: kinds[..n][before[i]] == kinds[before[i]];
    var p := SplitByRank(kinds, before, Rank(kinds[n]));
    plan, ordered := InsertAt(before, p, n), if kinds[n].Ordered? then o + 1 else o;
    InsertedIsDistinct(before, p, n);
    InsertedIsSorted(kinds, before, p, n);
    InsertedOrderedFirst(kinds, before, o, p, n);
    hide InsertAt;
  }

  function InsertAt(before: seq<nat>, p: nat, n: nat): (plan: seq<nat>)
    requires p <= |before|
    ensures |plan| == |before| + 1
    ensures forall i | 0 <= i < |plan| :: plan[i] == if i < p then before[i] else if i == p then n else before[i - 1]
  {
    before[..p] + [n] + before[p..]
  }

  lemma InsertedIsDistinct(before: seq<nat>, p: nat, n: nat)
    requires p <= |before| && forall i | 0 <= i < |before| :: before[i] < n
    requires forall i, j | 0 <= i < j < |before| :: before[i] != before[j]
    ensures forall i, j | 0 <= i < j < |before| + 1 :: InsertAt(before, p, n)[i] != InsertAt(before, p, n)[j]
  {
  }

  lemma InsertedIsSorted(kinds: seq<Kind>, before: seq<nat>, p: nat, n: nat)
    requires p <= |before| && n < |kinds| && forall i | 0 <= i < |before| :: before[i] < n
    requires forall i, j | 0 <= i < j < |before| :: Rank(kinds[before[i]]) <= Rank(kinds[before[j]])
    requires forall i | 0 <= i < p :: Rank(kinds[before[i]]) <= Rank(kinds[n])
    requires forall i | p <= i < |before| :: Rank(kinds[before[i]]) > Rank(kinds[n])
    ensures
      var plan := InsertAt(before, p, n);
      && (forall i | 0 <= i < |plan| :: plan[i] < |kinds|)
      && (forall i, j | 0 <= i < j < |plan| :: Rank(kinds[plan[i]]) <= Rank(kinds[plan[j]]))
  {
  }

  /** Ordered registrations have the lowest rank, so a new one goes right after them. */
  lemma InsertedOrderedFirst(kinds: seq<Kind>, before: seq<nat>, o: nat, p: nat, n: nat)
    requires p <= |before| && o <= |before| && n < |kinds| && forall i | 0 <= i < |before| :: before[i] < n
    requires forall i | 0 <= i < |before| :: kinds[before[i]].Ordered? <==> i < o
    requires forall i | 0 <= i < p :: Rank(kinds[before[i]]) <= Rank(kinds[n])
    requires forall i | p <= i < |before| :: Rank(kinds[before[i]]) > Rank(kinds[n])
    ensures
      var plan := InsertAt(before, p, n);
      forall i | 0 <= i < |plan| ::
        plan[i] < |kinds| && (kinds[plan[i]].Ordered? <==> i < (if kinds[n].Ordered? then o + 1 else o))
  {
    if kinds[n].Ordered? {
      assert p < |before| ==> !kinds[before[p]].Ordered?;
      assert p > 0 ==> kinds[before[p - 1]].Ordered?;
      assert p == o;
    } else {
      assert p < |before| ==> !kinds[before[p]].Ordered?;
      assert o <= p;
    }
  }

  /** MAIN RESULT: no call is ever stuck, except that `Connect` waits at the barrier for a signal
      or the end of its context. */
  lemma NeverStuck(acts: seq<Action>, t: nat) returns (a: Action)
    requires t < |Run(acts).threads| && !At(Run(acts), t, Returned)
    requires At(Run(acts), t, Waiting) ==> Run(acts).channel > 0 || Run(acts).cancelled
    ensures Enabled(Run(acts), a)
  {
    var b := Run(acts);
    RunKeepsInv(acts);
    InvIsInRange(b);
    hide Run;
    assert PcPlan(b.threads[t], |b.fates|, |b.plan|, b.got, b.orderedCount);
    hide Inv, InRange, PlanOk;
    match b.threads[t]
    case ConnectCalled =>
      var plan, ordered := PlanExists(b.kinds);
      a := EnterConnect(t, plan, ordered);
    case Starting => a := Subscribe(t, true, 0);
    case Subscribed => a := Store(t);
    case Rejecting => a := StopRejected(t, false);
    case Waiting => a := if b.channel > 0 then Receive(t) else GiveUpWaiting(t);
    case DisconnectCalled => a := EnterDisconnect(t);
    case Cancelling => a := Cancel(t);
    case Stopping => a := StopNext(t, false);
    case Signalling => a := SignalDone(t);
  }

  // ----------------------------------------------------------------- what done says

  /** `done` carries an error only if there was one, and does if stopping failed. */
  ghost predicate Telling(b: Bus) {
    && (b.doneErrors > 0 ==> b.stopErr || b.stopFailed)
    && (b.doneCloses > 0 && b.stopFailed ==> b.doneErrors == 1)
  }

  /** An error recorded before `done` closes is the one it carries. */
  ghost predicate Committed(b: Bus) {
    b.stopErr && (b.doneCloses == 0 || b.doneErrors == 1)
  }

  lemma StoppingBeforeDone(b: Bus, t: nat)
    requires Inv(b) && t < |b.threads| && Closing(b.threads[t])
    ensures b.doneCloses == 0 && b.doneErrors == 0
  {
    hide OwnershipInv, SignalsInv, PlanOk, PlanInv;
  }

  lemma StepKeepsTelling(b: Bus, a: Action)
    requires Inv(b) && Enabled(b, a)
    ensures Telling(b) ==> Telling(Next(b, a))
    ensures Committed(b) ==> Committed(Next(b, a))
  {
    if a.StopNext? || a.SignalDone? {
      StoppingBeforeDone(b, a.t);
    }
    hide Inv, InRange, PlanOk, StopFate, HeldSubs, AfterStart, DoEnterConnect, DoSubscribe, DoStore, DoReceive,
      DoEndMessage, DoEnterDisconnect, DoStopRejected, DoRegister;
    if !a.StopNext? && !a.SignalDone? && !a.FatalError? {
      DoneUntouched(b, a);
    }
  }

  predicate SameDone(b: Bus, b': Bus) {
    && b'.doneCloses == b.doneCloses && b'.doneErrors == b.doneErrors
    && b'.stopErr == b.stopErr && b'.stopFailed == b.stopFailed
  }

  lemma ConnectStepsLeaveDone(b: Bus, a: Action)
    requires Enabled(b, a) && (a.EnterConnect? || a.Subscribe? || a.Store? || a.StopRejected? || a.Receive?)
    ensures SameDone(b, Next(b, a))
  {
    hide InRange, PlanOk, StopFate, AfterStart, Opened;
  }

  /** Only stopping and signalling touch what `done` says. */
  lemma DoneUntouched(b: Bus, a: Action)
    requires Enabled(b, a) && !a.StopNext? && !a.SignalDone? && !a.FatalError?
    ensures SameDone(b, Next(b, a))
  {
    if a.EnterConnect? || a.Subscribe? || a.Store? || a.StopRejected? || a.Receive? {
      ConnectStepsLeaveDone(b, a);
    }
    hide InRange, PlanOk, HeldSubs, DoEnterConnect, DoSubscribe, DoStore, DoStopRejected, DoReceive,
      Arrive, Send, Begin, Handled;
  }

  lemma {:induction false} RunKeepsTelling(acts: seq<Action>)
    ensures Telling(Run(acts))
  {
    if acts != [] {
      var b, a := Run(acts[..|acts| - 1]), acts[|acts| - 1];
      RunKeepsTelling(acts[..|acts| - 1]);
      RunKeepsInv(acts[..|acts| - 1]);
      hide Next, Enabled, Telling, Inv;
      if Enabled(b, a) {
        StepKeepsTelling(b, a);
      }
    }
  }

  lemma {:induction false} CommittedStays(before: seq<Action>, after: seq<Action>)
    requires Committed(Run(before))
    ensures Committed(Run(before + after))
    decreases |after|
  {
    hide Next, Enabled, Committed, Inv;
    if after == [] {
      assert before + after == before;
    } else {
      var acts, a := before + after[..|after| - 1], after[|after| - 1];
      CommittedStays(before, after[..|after| - 1]);
      RunKeepsInv(acts);
      RunSnoc(acts, a);
      assert before + after == acts + [a];
      if Enabled(Run(acts), a) {
        StepKeepsTelling(Run(acts), a);
      }
    }
  }

  /** A fatal error of a subscription reaches `done`, if `done` has not closed before. */
  lemma FatalErrorReachesDone(before: seq<Action>, after: seq<Action>)
    requires Run(before).doneCloses == 0
    ensures
      var b := Run(before + [FatalError] + after);
      b.doneCloses > 0 ==> b.doneErrors == 1
  {
    RunKeepsInv(before);
    InvIsInRange(Run(before));
    RunSnoc(before, FatalError);
    CommittedStays(before + [FatalError], after);
  }

  // --------------------------------------------------- a waiting Connect is released

  /** Whoever stops subscriptions or has signalled has cancelled the context before. */
  ghost predicate Released(cancelled: bool, threads: seq<Pc>, closes: nat) {
    && (closes > 0 ==> cancelled)
    && (forall t | 0 <= t < |threads| && (threads[t].Stopping? || threads[t].Signalling?) :: cancelled)
  }

  /** After a step of `Connect` the context is as before and the call stops nothing. */
  predicate StopsNothing(b: Bus, b': Bus, t: nat) {
    && b'.cancelled == b.cancelled && t < |b'.threads|
    && !b'.threads[t].Stopping? && !b'.threads[t].Signalling?
  }

  lemma AfterStartStopsNothing(created: nat, planned: nat, got: nat, ordered: nat)
    ensures var pc := AfterStart(created, planned, got, ordered); !pc.Stopping? && !pc.Signalling?
  {
  }

  lemma EnteringStopsNothing(b: Bus, a: Action)
    requires Enabled(b, a) && (a.EnterConnect? || a.Subscribe?)
    ensures StopsNothing(b, Next(b, a), a.t)
  {
    if a.EnterConnect? {
      AfterStartStopsNothing(|b.fates|, |a.plan|, b.got, a.ordered);
    }
    hide InRange, PlanOk, AfterStart, Opened;
  }

  lemma SettlingStopsNothing(b: Bus, a: Action)
    requires Enabled(b, a) && (a.Store? || a.StopRejected? || a.Receive?)
    ensures StopsNothing(b, Next(b, a), a.t)
  {
    AfterStartStopsNothing(|b.fates|, |b.plan|, b.got, b.orderedCount);
    AfterStartStopsNothing(|b.fates|, |b.plan|, b.got + 1, b.orderedCount);
    hide PlanOk, AfterStart, StopFate;
  }

  lemma ConnectKeepsReleased(b: Bus, a: Action)
    requires Released(b.cancelled, b.threads, b.doneCloses) && Enabled(b, a)
    requires a.EnterConnect? || a.Subscribe? || a.Store? || a.StopRejected? || a.Receive?
    ensures var b' := Next(b, a); Released(b'.cancelled, b'.threads, b'.doneCloses)
  {
    hide Next, Enabled;
    if a.EnterConnect? || a.Subscribe? {
      EnteringStopsNothing(b, a);
    } else {
      SettlingStopsNothing(b, a);
    }
    ConnectMovesOnly(b, a);
    ConnectStepsLeaveDone(b, a);
  }

  lemma DisconnectKeepsReleased(b: Bus, a: Action)
    requires Released(b.cancelled, b.threads, b.doneCloses) && Enabled(b, a)
    requires a.GiveUpWaiting? || a.EnterDisconnect? || a.Cancel? || a.StopNext? || a.SignalDone?
    ensures var b' := Next(b, a); Released(b'.cancelled, b'.threads, b'.doneCloses)
  {
    hide InRange, PlanOk, StopFate, HeldSubs;
  }

  lemma OthersKeepReleased(b: Bus, a: Action)
    requires Released(b.cancelled, b.threads, b.doneCloses) && Enabled(b, a)
    requires a.Register? || a.CallConnect? || a.CallDisconnect? || a.FatalError? || a.CancelContext? ||
             a.MessageArrives? || a.SendMessage? || a.BeginMessage? || a.EndMessage?
    ensures var b' := Next(b, a); Released(b'.cancelled, b'.threads, b'.doneCloses)
  {
    hide InRange, PlanOk, Arrive, Send, Begin, Handled;
  }

  lemma {:induction false} RunKeepsReleased(acts: seq<Action>)
    ensures var b := Run(acts); Released(b.cancelled, b.threads, b.doneCloses)
  {
    if acts != [] {
      var b, a := Run(acts[..|acts| - 1]), acts[|acts| - 1];
      RunKeepsReleased(acts[..|acts| - 1]);
      hide Next, Enabled, Released;
      if !Enabled(b, a) {
      } else if a.EnterConnect? || a.Subscribe? || a.Store? || a.StopRejected? || a.Receive? {
        ConnectKeepsReleased(b, a);
      } else if a.GiveUpWaiting? || a.EnterDisconnect? || a.Cancel? || a.StopNext? || a.SignalDone? {
        DisconnectKeepsReleased(b, a);
      } else {
        OthersKeepReleased(b, a);
      }
    }
  }

  /** MAIN RESULT: `Disconnect` never waits for a `Connect` at the barrier, and leaves none there:
      once it is done, a waiting `Connect` can give up. */
  lemma WaitingConnectIsReleased(acts: seq<Action>, t: nat)
    requires Run(acts).doneCloses > 0 && At(Run(acts), t, Waiting)
    ensures Enabled(Run(acts), GiveUpWaiting(t))
  {
    RunKeepsReleased(acts);
    RunKeepsInv(acts);
    InvIsInRange(Run(acts));
  }

  /** MAIN RESULT: `done` carries an error exactly when there is one to carry: if it does, then a
      subscription ended in an error or a stop failed; and it does whenever a stop failed, or a
      subscription's error was recorded before `done` closed. */
  lemma DoneCarriesTheError(before: seq<Action>, after: seq<Action>)
    ensures
      var b0, b := Run(before), Run(before + after);
      && (b.doneErrors > 0 ==> b.stopErr || b.stopFailed)
      && (b.doneCloses > 0 && b.stopFailed ==> b.doneErrors == 1)
      && (b0.stopErr && b0.doneCloses == 0 && b.doneCloses > 0 ==> b.doneErrors == 1)
  {
    RunKeepsTelling(before + after);
    if Run(before).stopErr && Run(before).doneCloses == 0 {
      CommittedStays(before, after);
    }
  }

  lemma Advance(acts: seq<Action>, b: Bus, a: Action, b': Bus)
    requires Run(acts) == b && Enabled(b, a) && Next(b, a) == b'
    ensures Run(acts + [a]) == b'
  {
    RunSnoc(acts, a);
  }

  /** `Connect` has subscribed for the only command and not stored it yet. */
  function CommandInHand(): Bus {
    NewBus().(kinds := [CommandReg], held := [None], running := true, starter := Some(0), plan := [0],
              fates := [Fate(0, false)], sessions := [NewSession(5)], threads := [Subscribed, DisconnectCalled])
  }

  /** The other call has closed the bus meanwhile. */
  function ClosedMeanwhile(): Bus {
    CommandInHand().(closed := true, running := false, closer := Some(1), threads := [Subscribed, Cancelling])
  }

  lemma ReachRegistered() returns (acts: seq<Action>)
    ensures Run(acts) == NewBus().(kinds := [CommandReg], held := [None], threads := [ConnectCalled, DisconnectCalled])
  {
    var b := NewBus().(kinds := [] + [CommandReg], held := [] + [None]);
    assert Run([]) == NewBus();
    hide Run, Next, Enabled;
    RegisterAdvances([], NewBus(), CommandReg);
    acts := [] + [Register(CommandReg)];
    CallAdvances(acts, b, CallConnect, ConnectCalled);
    acts := acts + [CallConnect];
    CallAdvances(acts, b.(threads := b.threads + [ConnectCalled]), CallDisconnect, DisconnectCalled);
    acts := acts + [CallDisconnect];
    assert b.threads + [ConnectCalled] + [DisconnectCalled] == [ConnectCalled, DisconnectCalled];
  }

  lemma RegisterAdvances(acts: seq<Action>, b: Bus, kind: Kind)
    requires Run(acts) == b && InRange(b) && !b.running && !b.closed
    ensures Run(acts + [Register(kind)]) == b.(kinds := b.kinds + [kind], held := b.held + [None])
  {
    Advance(acts, b, Register(kind), DoRegister(b, kind));
  }

  lemma CallAdvances(acts: seq<Action>, b: Bus, a: Action, pc: Pc)
    requires Run(acts) == b && InRange(b)
    requires (a, pc) == (CallConnect, ConnectCalled) || (a, pc) == (CallDisconnect, DisconnectCalled)
    ensures Run(acts + [a]) == b.(threads := b.threads + [pc])
  {
    Advance(acts, b, a, b.(threads := b.threads + [pc]));
  }

  lemma ReachCommandInHand() returns (acts: seq<Action>)
    ensures Run(acts) == CommandInHand()
  {
    hide Run;
    acts := ReachRegistered();
    var b := NewBus().(kinds := [CommandReg], held := [None], threads := [ConnectCalled, DisconnectCalled]);
    var b' := b.(running := true, starter := Some(0), plan := [0], threads := [Starting, DisconnectCalled]);
    Advance(acts, b, EnterConnect(0, [0], 0), b');
    acts := acts + [EnterConnect(0, [0], 0)];
    Advance(acts, b', Subscribe(0, true, 5), CommandInHand());
    acts := acts + [Subscribe(0, true, 5)];
  }

  lemma ReachClosedMeanwhile() returns (acts: seq<Action>)
    ensures Run(acts) == ClosedMeanwhile()
  {
    hide Run;
    acts := ReachCommandInHand();
    assert HeldSubs([None]) == [];
    Advance(acts, CommandInHand(), EnterDisconnect(1), ClosedMeanwhile());
    acts := acts + [EnterDisconnect(1)];
  }

  lemma StopAndSignal(acts: seq<Action>, b: Bus)
    requires Run(acts) == b && InRange(b) && b.threads == [Subscribed, Stopping]
    requires b.nextStop == |b.doomed| && b.doneCloses == 0 && !b.stopErr && !b.stopFailed
    ensures Run(acts + [StopNext(1, false)] + [SignalDone(1)]) == b.(doneCloses := 1, threads := [Subscribed, Returned])
  {
    hide Run, InRange;
    var b' := WithPc(b, 1, Signalling);
    assert InRange(b') by { InRangeIgnoresThreads(b, b'.threads); }
    Advance(acts, b, StopNext(1, false), b');
    Advance(acts + [StopNext(1, false)], b', SignalDone(1), DoSignalDone(b', 1));
    assert b.threads[1 := Signalling][1 := Returned] == [Subscribed, Returned];
  }

  lemma InRangeIgnoresThreads(b: Bus, threads: seq<Pc>)
    requires InRange(b)
    ensures InRange(b.(threads := threads))
  {
  }

  lemma ReachDone() returns (acts: seq<Action>)
    ensures Run(acts) == ClosedMeanwhile().(cancelled := true, doneCloses := 1, threads := [Subscribed, Returned])
  {
    hide Run;
    acts := ReachClosedMeanwhile();
    var b := ClosedMeanwhile().(cancelled := true, threads := [Subscribed, Stopping]);
    Advance(acts, ClosedMeanwhile(), Cancel(1), b);
    acts := acts + [Cancel(1)];
    StopAndSignal(acts, b);
    acts := acts + [StopNext(1, false)] + [SignalDone(1)];
  }

  /** A `Disconnect` that overlaps `Connect` leaks a command subscription: it is stored after
      the close, so nobody ever stops it. */
  lemma OverlapLeaksCommand()
    ensures exists acts: seq<Action> ::
              var b := Run(acts);
              b.closed && AllReturned(b) && |b.fates| == 1 && b.fates[0].stops == 0
  {
    hide Run;
    var acts := ReachDone();
    var b := ClosedMeanwhile().(cancelled := true, doneCloses := 1, threads := [Subscribed, Returned]);
    var b' := b.(held := [Some(0)], fates := [Fate(0, true)], threads := [Returned, Returned]);
    Advance(acts, b, Store(0), b');
    assert Run(acts + [Store(0)]).closed && AllReturned(Run(acts + [Store(0)]));
  }
}

/** Any number of `Execute` calls against one shared stream, interleaved freely.

    Every action below is one interaction of one call with the server (or one local
    step), so a run is an arbitrary interleaving. Each call may sit behind the bus's
    conflict retry, which starts the whole `Execute` again; a bare `Execute` is a
    call with one round. Reads may be served from any snapshot of the aggregate,
    including a stale one or none, which covers get-last served by a lagging replica.

    Assumptions, all stated in `WellFormed` or built into the types: the log is never
    purged; saved events have kind `event` and types listed in `EventTypes`; `mutate`
    leaves the aggregate alone; event and explicit snapshot payloads survive encoding. */
module ExecuteProtocol {
  import opened EventLog

  /** One call: the aggregate it works on, the store's `SnapshotEvery`, the
      possible outputs of its `mutate` (given state, version and attempt), its
      normalised `MaxAttempts`, and the number of tries the bus gives it. */
  datatype Call<!S, !E> = Call(
    id: Id,
    every: nat,
    mutate: (S, nat, nat, seq<E>) -> bool,
    maxAttempts: nat,
    rounds: nat
  )

  datatype Outcome =
    | Saved               // a save was acknowledged
    | NothingToSave       // mutate produced no events
    | ConflictExhausted   // the last attempt of the last try was rejected
    | MutateConflict      // mutate ended the last try with an error that is a conflict
    | Failed              // any other error, including a lost acknowledgement

  datatype Phase<S, E> =
    | Ready
    | SnapshotRead(start: nat, st: S)
    | Reading(next: nat, version: nat, st: S)
    | Loaded(version: nat, st: S)
    | Saving(version: nat, st: S, events: seq<E>)
    | Counting(version: nat, st: S, events: seq<E>, lastSnapshot: nat)
    | Publishing(version: nat, st: S, events: seq<E>, lastSnapshot: nat, snapshot: bool, sent: nat)
    | Finished(outcome: Outcome)

  /** `refusals` counts the conflicts `mutate` itself reported, `since` is the length the log
      had when the latest load began. */
  datatype Client<S, E> = Client(
    round: nat, attempt: nat, saves: nat, refusals: nat, since: nat, phase: Phase<S, E>)

  /** A committed save: who made it, the log length it found, and what it wrote. */
  datatype Commit<E> = Commit(
    client: nat, base: nat, attempt: nat, version: nat, events: seq<E>, lastSnapshot: nat, snapshot: bool)

  datatype World<S, E> = World(server: Server<S, E>, clients: seq<Client<S, E>>, history: seq<Commit<E>>)

  datatype System<!S, !E> = System(aggregate: Aggregate<S, E>, calls: seq<Call<S, E>>)

  ghost predicate WellFormed<S(!new), E(!new)>(sys: System<S, E>) {
    forall i | 0 <= i < |sys.calls| ::
      && sys.calls[i].maxAttempts >= 1
      && sys.calls[i].rounds >= 1
      && forall st, v, n, es | sys.calls[i].mutate(st, v, n, es) ::
           forall e | e in es :: sys.aggregate.decode(e) == Decodes
  }

  // --------------------------------------------------------------- actions

  datatype Action<E> =
    | ReadSnapshot(c: nat, at: nat)          // get-last on the snapshot subject, `at` == 0 for none
    | OpenConsumer(c: nat)
    | ReadNext(c: nat, q: nat)
    | Mutate(c: nat, events: seq<E>)
    | MutateError(c: nat, conflict: bool)
    | ReadSnapshotSeq(c: nat, at: nat)
    | Count(c: nat)
    | Publish(c: nat, ackLost: bool)         // the next message of the save reaches the server
    | EarlyConflict(c: nat)                  // the server refuses the expectation before the commit
    | Fail(c: nat)                           // load, marshal or request error, or cancelled context

  function Messages<S, E>(a: Aggregate<S, E>, id: Id, p: Phase<S, E>): seq<Message<S, E>>
    requires p.Publishing?
  {
    Batch(a, id, p.st, p.events, p.snapshot)
  }

  predicate Enabled<S(==), E(==)>(sys: System<S, E>, w: World<S, E>, act: Action<E>) {
    && act.c < |w.clients| == |sys.calls|
    && var cl, call, log := w.clients[act.c], sys.calls[act.c], w.server.log;
       match act
       case ReadSnapshot(_, at) => cl.phase.Ready? && SnapshotAt(log, call.id, at)
       case OpenConsumer(_) => cl.phase.SnapshotRead?
       case ReadNext(_, q) => cl.phase.Reading? && NextAt(log, call.id, cl.phase.next, q)
       case Mutate(_, events) =>
         cl.phase.Loaded? && call.mutate(cl.phase.st, cl.phase.version, cl.attempt, events)
       case MutateError(_, _) => cl.phase.Loaded?
       case ReadSnapshotSeq(_, at) => cl.phase.Saving? && call.every > 0 && SnapshotAt(log, call.id, at)
       case Count(_) => cl.phase.Counting? || (cl.phase.Saving? && call.every == 0)
       case Publish(_, _) => cl.phase.Publishing? && cl.phase.sent < |Messages(sys.aggregate, call.id, cl.phase)|
       case EarlyConflict(_) => cl.phase.Publishing? && LastSeq(log, call.id) != cl.phase.version
       case Fail(_) => !cl.phase.Finished?
  }

  predicate SnapshotAt<S(==), E(==)>(log: seq<Message<S, E>>, id: Id, s: nat)
    ensures SnapshotAt(log, id, s) == IsSnapshotOrNone(log, id, s)
  {
    s == 0 || (s <= |log| && log[s - 1].id == id && log[s - 1].SnapshotMessage?)
  }

  predicate NextAt<S(==), E(==)>(log: seq<Message<S, E>>, id: Id, from: nat, q: nat)
    ensures NextAt(log, id, from, q) == IsNext(log, id, from, q)
  {
    && 0 < q && from <= q <= |log|
    && log[q - 1].id == id
    && forall k | 0 <= k < |log| && from <= k + 1 < q :: log[k].id != id
  }

  /** After a conflict: the next attempt, else the next try of the bus, else give up. */
  function AfterConflict<S, E>(call: Call<S, E>, cl: Client<S, E>): Client<S, E> {
    if cl.attempt + 1 < call.maxAttempts then cl.(attempt := cl.attempt + 1, phase := Ready)
    else AfterExecuteConflict(call, cl, ConflictExhausted)
  }

  /** After an `Execute` returned an error that is a conflict: `withCommandConflictRetry`. */
  function AfterExecuteConflict<S, E>(call: Call<S, E>, cl: Client<S, E>, outcome: Outcome): Client<S, E> {
    if cl.round + 1 < call.rounds then cl.(round := cl.round + 1, attempt := 0, phase := Ready)
    else cl.(phase := Finished(outcome))
  }

  /** One message of the save in progress goes to the server: alone if it is the
      only one, otherwise as the next message of the batch. */
  function Send<S, E>(sys: System<S, E>, w: World<S, E>, c: nat): (Server<S, E>, Response)
    requires c < |w.clients| == |sys.calls|
    requires w.clients[c].phase.Publishing?
    requires w.clients[c].phase.sent < |Messages(sys.aggregate, sys.calls[c].id, w.clients[c].phase)|
  {
    var cl, id := w.clients[c], sys.calls[c].id;
    var p := cl.phase;
    var ms := Messages(sys.aggregate, id, p);
    if |ms| == 1 then
      PublishOne(w.server, id, p.version, ms[0])
    else
      PublishInBatch(w.server, (c, cl.saves), p.sent + 1, id, p.version, ms[p.sent], p.sent + 1 == |ms|)
  }

  function NextClient<S(==), E(==)>(sys: System<S, E>, w: World<S, E>, act: Action<E>): Client<S, E>
    requires Enabled(sys, w, act)
  {
    var cl, call, log, a := w.clients[act.c], sys.calls[act.c], w.server.log, sys.aggregate;
    match act
    case ReadSnapshot(_, at) =>
      cl.(since := |log|,
          phase := if at == 0 then SnapshotRead(0, a.initial(call.id))
                   else SnapshotRead(at + 1, ApplyMessage(a, a.initial(call.id), log[at - 1])))
    case OpenConsumer(_) =>
      var start := if cl.phase.start == 0 then 1 else cl.phase.start;
      if CountFrom(log, call.id, start) == 0 then
        cl.(phase := Loaded(if cl.phase.start > 0 then cl.phase.start - 1 else 0, cl.phase.st))
      else
        cl.(phase := Reading(start, 0, cl.phase.st))
    case ReadNext(_, q) =>
      var st := ApplyMessage(a, cl.phase.st, log[q - 1]);
      cl.(phase := if CountFrom(log, call.id, q + 1) == 0 then Loaded(q, st) else Reading(q + 1, q, st))
    case Mutate(_, events) =>
      if events == [] then cl.(phase := Finished(NothingToSave))
      else cl.(saves := cl.saves + 1, phase := Saving(cl.phase.version, cl.phase.st, events))
    case MutateError(_, conflict) =>
      if conflict then AfterExecuteConflict(call, cl.(refusals := cl.refusals + 1), MutateConflict)
      else cl.(phase := Finished(Failed))
    case ReadSnapshotSeq(_, at) =>
      cl.(phase := Counting(cl.phase.version, cl.phase.st, cl.phase.events, at))
    case Count(_) =>
      var last := if cl.phase.Counting? then cl.phase.lastSnapshot else 0;
      var due := SnapshotDue(call.every, CountFrom(log, call.id, last + 1), |cl.phase.events|);
      cl.(phase := Publishing(cl.phase.version, cl.phase.st, cl.phase.events, last, due, 0))
    case Publish(_, ackLost) =>
      if ackLost then cl.(phase := Finished(Failed)) else
        (match Send(sys, w, act.c).1
         case StagedOnly => cl.(phase := cl.phase.(sent := cl.phase.sent + 1))
         case Ack => cl.(phase := Finished(Saved))
         case WrongLastSequence => AfterConflict(call, cl)
         case Rejected => cl.(phase := Finished(Failed)))
    case EarlyConflict(_) => AfterConflict(call, cl)
    case Fail(_) => cl.(phase := Finished(Failed))
  }

  function Next<S(==), E(==)>(sys: System<S, E>, w: World<S, E>, act: Action<E>): World<S, E>
    requires Enabled(sys, w, act)
  {
    var clients := w.clients[act.c := NextClient(sys, w, act)];
    if act.Publish? then
      var (server, response) := Send(sys, w, act.c);
      var p := w.clients[act.c].phase;
      World(server, clients,
        if response.Ack? then
          w.history + [Commit(act.c, |w.server.log|, w.clients[act.c].attempt, p.version, p.events, p.lastSnapshot,
              p.snapshot)]
        else w.history)
    else
      w.(clients := clients)
  }

  /** The world after a sequence of actions; actions that are not enabled are skipped. */
  function Run<S(==), E(==)>(sys: System<S, E>, acts: seq<Action<E>>): World<S, E> {
    if acts == [] then
      World(Server([], map[]), seq(|sys.calls|, i => Client(0, 0, 0, 0, 0, Ready)), [])
    else
      var w := Run(sys, Init(acts));
      if Enabled(sys, w, Last(acts)) then Next(sys, w, Last(acts)) else w
  }

  // ------------------------------------------------- the serial specification

  /** A save as if it had run alone on the log it found: its version is the last of
      the aggregate, its events are an output of `mutate` on the full replay of all
      events committed before, and it wrote them in order, with its snapshot last. */
  ghost predicate SerialCommit<S, E>(
      a: Aggregate<S, E>, call: Call<S, E>, before: seq<Message<S, E>>, written: seq<Message<S, E>>, k: Commit<E>)
  {
    && k.events != []
    && k.base == |before|
    && k.version == LastSeq(before, call.id)
    && call.mutate(Replay(a, before, call.id), k.version, k.attempt, k.events)
    && IsSnapshotOrNone(before, call.id, k.lastSnapshot)
    && (k.snapshot <==> 0 < call.every <= CountFrom(before, call.id, k.lastSnapshot + 1) + |k.events|)
    && written == Batch(a, call.id, Replay(a, before, call.id), k.events, k.snapshot)
  }

  /** The log is exactly the committed saves, one after another. */
  ghost predicate SerialHistory<S, E>(sys: System<S, E>, history: seq<Commit<E>>, log: seq<Message<S, E>>)
    decreases |history|
  {
    if history == [] then log == []
    else
      var k := Last(history);
      && k.client < |sys.calls|
      && k.base <= |log|
      && SerialHistory(sys, Init(history), log[..k.base])
      && SerialCommit(sys.aggregate, sys.calls[k.client], log[..k.base], log[k.base..], k)
  }

  // --------------------------------------------------------------- invariant

  /** The events of a save were produced from the prefix its call knows. */
  ghost predicate CarriesSave<S, E>(
      a: Aggregate<S, E>, call: Call<S, E>, attempt: nat, log: seq<Message<S, E>>, version: nat, st: S, events: seq<E>)
  {
    && KnowsPrefix(a, call.id, log, version, st)
    && events != [] && call.mutate(st, version, attempt, events)
  }

  /** The snapshot decision is right for as long as the save can still commit. */
  ghost predicate CountedRight<S, E>(
      call: Call<S, E>, log: seq<Message<S, E>>, version: nat, added: nat, last: nat, snapshot: bool)
  {
    && IsSnapshotOrNone(log, call.id, last)
    && (LastSeq(log, call.id) == version ==>
          (snapshot <==> 0 < call.every <= CountFrom(log, call.id, last + 1) + added))
  }

  /** The server has staged exactly the messages sent so far. */
  ghost predicate StagedSoFar<S, E>(
      staging: map<BatchId, Staged<S, E>>, b: BatchId, id: Id, version: nat, ms: seq<Message<S, E>>, sent: nat)
  {
    && sent < |ms|
    && (sent > 0 ==> b in staging && staging[b] == Staged(id, version, ms[..sent]))
  }

  ghost predicate PhaseInv<S, E>(a: Aggregate<S, E>, call: Call<S, E>, c: nat, cl: Client<S, E>, sv: Server<S, E>) {
    var log, id := sv.log, call.id;
    match cl.phase
    case Ready => true
    case SnapshotRead(start, st) =>
      cl.since <= |log| && if start == 0 then st == a.initial(id) else KnowsPrefix(a, id, log, start - 1, st)
    case Reading(next, version, st) =>
      && cl.since <= |log| && 0 < next <= |log| + 1 && st == Replay(a, log[..next - 1], id)
      && CountFrom(log, id, next) > 0
    case Loaded(version, st) =>
      cl.since <= |log| && KnowsPrefix(a, id, log, version, st) && LastSeq(log[..cl.since], id) <= version
    case Saving(version, st, events) => CarriesSave(a, call, cl.attempt, log, version, st, events)
    case Counting(version, st, events, last) =>
      CarriesSave(a, call, cl.attempt, log, version, st, events) && IsSnapshotOrNone(log, id, last)
    case Publishing(version, st, events, last, snapshot, sent) =>
      && CarriesSave(a, call, cl.attempt, log, version, st, events)
      && CountedRight(call, log, version, |events|, last, snapshot)
      && StagedSoFar(sv.staging, (c, cl.saves), id, version, Batch(a, id, st, events, snapshot), sent)
    case Finished(outcome) => outcome.NothingToSave? ==> HadNothing(a, call, log, cl.attempt)
  }

  /** `mutate` had nothing to save, given the full replay of some prefix of the log. */
  ghost predicate HadNothing<S, E>(a: Aggregate<S, E>, call: Call<S, E>, log: seq<Message<S, E>>, attempt: nat) {
    exists v: nat :: v <= |log| && call.mutate(Replay(a, log[..v], call.id), v, attempt, [])
  }

  /** The saves that attempts and tries account for, if `mutate` reported no conflict. */
  ghost predicate Spent<S, E>(call: Call<S, E>, cl: Client<S, E>, saving: nat) {
    && cl.saves <= cl.round * call.maxAttempts + cl.attempt + saving
    && (cl.refusals == 0 ==> cl.saves == cl.round * call.maxAttempts + cl.attempt + saving)
  }

  /** Retry bookkeeping: one save per attempt, attempts and tries bounded, and a call that
      gives up on conflicts has used them all. */
  ghost predicate Budget<S, E>(call: Call<S, E>, cl: Client<S, E>) {
    && cl.round < call.rounds && cl.attempt < call.maxAttempts
    && match cl.phase
       case Finished(outcome) =>
         && cl.saves <= call.rounds * call.maxAttempts
         && (outcome.ConflictExhausted? ==>
               && cl.round + 1 == call.rounds && cl.attempt + 1 == call.maxAttempts
               && (cl.refusals == 0 ==> cl.saves == call.rounds * call.maxAttempts))
         && (outcome.MutateConflict? ==> cl.round + 1 == call.rounds && cl.refusals > 0)
       case Saving(_, _, _) => Spent(call, cl, 1)
       case Counting(_, _, _, _) => Spent(call, cl, 1)
       case Publishing(_, _, _, _, _, _) => Spent(call, cl, 1)
       case _ => Spent(call, cl, 0)
  }

  ghost predicate Uncommitted<E>(history: seq<Commit<E>>, c: nat) {
    forall k | 0 <= k < |history| :: history[k].client != c
  }

  /** What a call's phase says about its commits. */
  ghost predicate OutcomeTells<S, E>(history: seq<Commit<E>>, c: nat, phase: Phase<S, E>) {
    match phase
    case Finished(Saved) => !Uncommitted(history, c)
    case Finished(Failed) => true
    case _ => Uncommitted(history, c)
  }

  /** No call commits twice, and its outcome tells whether it committed. */
  ghost predicate CommitsOnce<S, E>(w: World<S, E>) {
    && (forall j, k | 0 <= j < k < |w.history| :: w.history[j].client != w.history[k].client)
    && (forall c | 0 <= c < |w.clients| :: OutcomeTells(w.history, c, w.clients[c].phase))
  }

  ghost predicate ClientInv<S(!new), E(!new)>(sys: System<S, E>, w: World<S, E>, c: nat)
    requires c < |w.clients| == |sys.calls|
  {
    && PhaseInv(sys.aggregate, sys.calls[c], c, w.clients[c], w.server)
    && Budget(sys.calls[c], w.clients[c])
  }

  ghost predicate Inv<S(!new), E(!new)>(sys: System<S, E>, w: World<S, E>) {
    && |w.clients| == |sys.calls|
    && SerialHistory(sys, w.history, w.server.log)
    && (forall c | 0 <= c < |w.clients| :: ClientInv(sys, w, c))
    && CommitsOnce(w)
  }

  // ---------------------------------------------------------- preservation

  /** Every snapshot of a serial history is the full replay of what precedes it. */
  lemma {:induction false} SerialSnapshotsAgree<S(!new), E(!new)>(
      sys: System<S, E>, history: seq<Commit<E>>, log: seq<Message<S, E>>)
    requires WellFormed(sys)
    requires SerialHistory(sys, history, log)
    ensures SnapshotsAgree(sys.aggregate, log)
    decreases |history|
  {
    if history != [] {
      var k := Last(history);
      var id := sys.calls[k.client].id;
      SerialSnapshotsAgree(sys, Init(history), log[..k.base]);
      BatchKeepsAgreement(sys.aggregate, log[..k.base], id, k.events, k.snapshot);
      assert log == log[..k.base] + log[k.base..];
    }
  }

  lemma CountedRightStable<S, E>(
      call: Call<S, E>, log: seq<Message<S, E>>, ms: seq<Message<S, E>>, owner: Id,
      version: nat, added: nat, last: nat, snapshot: bool)
    requires version <= |log|
    requires CountedRight(call, log, version, added, last, snapshot)
    requires forall m | m in ms :: m.id == owner
    ensures CountedRight(call, log + ms, version, added, last, snapshot)
  {
    if ms == [] {
      assert log + ms == log;
    } else if owner == call.id {
      OwnAppendMovesLastSeq(log, ms, call.id);
    } else {
      OthersInvisible(log, ms, call.id, last + 1);
    }
  }

  /** Another call's commit leaves what a call knows intact: its prefix stays, and
      if the aggregate moved on its own save can only conflict. */
  lemma PhaseStable<S, E>(
      a: Aggregate<S, E>, call: Call<S, E>, c: nat, cl: Client<S, E>, sv: Server<S, E>, sv': Server<S, E>,
      ms: seq<Message<S, E>>, owner: Id)
    requires PhaseInv(a, call, c, cl, sv)
    requires sv'.log == sv.log + ms && forall m | m in ms :: m.id == owner
    requires (c, cl.saves) in sv.staging ==>
               (c, cl.saves) in sv'.staging && sv'.staging[(c, cl.saves)] == sv.staging[(c, cl.saves)]
    ensures PhaseInv(a, call, c, cl, sv')
  {
    var log, id := sv.log, call.id;
    match cl.phase
    case SnapshotRead(start, st) =>
      if start > 0 { KnowsPrefixStable(a, id, log, ms, start - 1, st); }
    case Reading(next, version, st) =>
      assert (log + ms)[..next - 1] == log[..next - 1];
      CountFromGrows(log, ms, id, next);
    case Loaded(version, st) =>
      KnowsPrefixStable(a, id, log, ms, version, st);
      assert (log + ms)[..cl.since] == log[..cl.since];
    case Finished(NothingToSave) =>
      var v: nat :| v <= |log| && call.mutate(Replay(a, log[..v], call.id), v, cl.attempt, []);
      assert (log + ms)[..v] == log[..v];
    case Saving(version, st, events) => KnowsPrefixStable(a, id, log, ms, version, st);
    case Counting(version, st, events, last) => KnowsPrefixStable(a, id, log, ms, version, st);
    case Publishing(version, st, events, last, snapshot, sent) =>
      KnowsPrefixStable(a, id, log, ms, version, st);
      CountedRightStable(call, log, ms, owner, version, |events|, last, snapshot);
    case _ =>
  }

  lemma {:induction false} SerialAppend<S, E>(
      sys: System<S, E>, history: seq<Commit<E>>, log: seq<Message<S, E>>, k: Commit<E>, written: seq<Message<S, E>>)
    requires SerialHistory(sys, history, log)
    requires k.client < |sys.calls|
    requires SerialCommit(sys.aggregate, sys.calls[k.client], log, written, k)
    ensures SerialHistory(sys, history + [k], log + written)
  {
    assert Init(history + [k]) == history;
    assert (log + written)[..k.base] == log;
    assert (log + written)[k.base..] == written;
  }

  /** An acknowledged last message appended the whole save on top of the expected version. */
  lemma AckAppendsWholeSave<S, E>(sys: System<S, E>, w: World<S, E>, c: nat)
    requires c < |w.clients| == |sys.calls| && w.clients[c].phase.Publishing?
    requires
      var p, id := w.clients[c].phase, sys.calls[c].id;
      StagedSoFar(w.server.staging, (c, w.clients[c].saves), id, p.version, Messages(sys.aggregate, id, p), p.sent)
    ensures Send(sys, w, c).1.Ack? ==>
      var p, id := w.clients[c].phase, sys.calls[c].id;
      && LastSeq(w.server.log, id) == p.version
      && Send(sys, w, c).0.log == w.server.log + Messages(sys.aggregate, id, p)
  {
    var p := w.clients[c].phase;
    var ms := Messages(sys.aggregate, sys.calls[c].id, p);
    assert ms[..p.sent] + [ms[p.sent]] == ms[..p.sent + 1];
    assert ms[..|ms|] == ms;
  }

  /** The server accepted the last message of a save: what was appended is the whole
      save, and it is serial with respect to the log it found. */
  lemma AckIsSerialCommit<S(!new), E(!new)>(sys: System<S, E>, w: World<S, E>, c: nat)
    requires c < |w.clients| == |sys.calls| && w.clients[c].phase.Publishing?
    requires PhaseInv(sys.aggregate, sys.calls[c], c, w.clients[c], w.server)
    requires Send(sys, w, c).1.Ack?
    ensures
      var p := w.clients[c].phase;
      var k := Commit(c, |w.server.log|, w.clients[c].attempt, p.version, p.events, p.lastSnapshot, p.snapshot);
      var ms := Messages(sys.aggregate, sys.calls[c].id, p);
      && Send(sys, w, c).0.log == w.server.log + ms
      && SerialCommit(sys.aggregate, sys.calls[c], w.server.log, ms, k)
  {
    var p := w.clients[c].phase;
    AckAppendsWholeSave(sys, w, c);
    CurrentVersionIsFullReplay(sys.aggregate, sys.calls[c].id, w.server.log, p.version, p.st);
  }

  lemma SendTouchesOwnBatchOnly<S, E>(sys: System<S, E>, w: World<S, E>, c: nat, b: BatchId)
    requires c < |w.clients| == |sys.calls|
    requires w.clients[c].phase.Publishing?
    requires w.clients[c].phase.sent < |Messages(sys.aggregate, sys.calls[c].id, w.clients[c].phase)|
    requires b.0 != c
    ensures b in w.server.staging ==>
              b in Send(sys, w, c).0.staging && Send(sys, w, c).0.staging[b] == w.server.staging[b]
    ensures !Send(sys, w, c).1.Ack? ==> Send(sys, w, c).0.log == w.server.log
  {
  }

  lemma BudgetSteps(rounds: nat, attempts: nat, round: nat, attempt: nat)
    requires round < rounds && attempt < attempts
    ensures (round + 1) * attempts == round * attempts + attempts
    ensures round * attempts + attempt + 1 <= rounds * attempts
  {
    assert (round + 1) * attempts <= rounds * attempts;
  }

  /** After a conflict on a save, the call has one save more behind it. */
  lemma ConflictKeepsBudget<S, E>(call: Call<S, E>, cl: Client<S, E>)
    requires Budget(call, cl) && (cl.phase.Saving? || cl.phase.Counting? || cl.phase.Publishing?)
    ensures Budget(call, AfterConflict(call, cl))
  {
    BudgetSteps(call.rounds, call.maxAttempts, cl.round, cl.attempt);
  }

  lemma RefusalKeepsBudget<S, E>(call: Call<S, E>, cl: Client<S, E>)
    requires Budget(call, cl) && !cl.phase.Finished?
    ensures Budget(call, AfterExecuteConflict(call, cl.(refusals := cl.refusals + 1), MutateConflict))
    ensures Budget(call, cl.(phase := Finished(Failed)))
    ensures Budget(call, cl.(phase := Finished(Saved)))
    ensures Budget(call, cl.(phase := Finished(NothingToSave)))
  {
    BudgetSteps(call.rounds, call.maxAttempts, cl.round, cl.attempt);
  }

  lemma ReadSnapshotKeepsPhase<S, E>(sys: System<S, E>, w: World<S, E>, act: Action<E>)
    requires Enabled(sys, w, act) && act.ReadSnapshot?
    requires SnapshotsAgree(sys.aggregate, w.server.log)
    ensures PhaseInv(sys.aggregate, sys.calls[act.c], act.c, NextClient(sys, w, act), w.server)
  {
    if act.at > 0 {
      SnapshotIsReplay(sys.aggregate, w.server.log, sys.calls[act.c].id, act.at);
    }
  }

  lemma OpenConsumerKeepsPhase<S, E>(sys: System<S, E>, w: World<S, E>, act: Action<E>)
    requires Enabled(sys, w, act) && act.OpenConsumer?
    requires PhaseInv(sys.aggregate, sys.calls[act.c], act.c, w.clients[act.c], w.server)
    ensures PhaseInv(sys.aggregate, sys.calls[act.c], act.c, NextClient(sys, w, act), w.server)
  {
    var cl, log, id := w.clients[act.c], w.server.log, sys.calls[act.c].id;
    var start := if cl.phase.start == 0 then 1 else cl.phase.start;
    assert log[..0] == [];
    if CountFrom(log, id, start) == 0 {
      NonePendingMeansRead(log, id, start);
      LastSeqOfPrefix(log, cl.since, id);
    }
  }

  lemma LastSeqOfPrefix<S, E>(log: seq<Message<S, E>>, n: nat, id: Id)
    requires n <= |log|
    ensures LastSeq(log[..n], id) <= LastSeq(log, id)
  {
    var v := LastSeq(log[..n], id);
    if v > 0 {
      assert log[v - 1] == log[..n][v - 1];
    }
  }

  lemma ReadNextKeepsPhase<S, E>(sys: System<S, E>, w: World<S, E>, act: Action<E>)
    requires Enabled(sys, w, act) && act.ReadNext?
    requires SnapshotsAgree(sys.aggregate, w.server.log)
    requires PhaseInv(sys.aggregate, sys.calls[act.c], act.c, w.clients[act.c], w.server)
    ensures PhaseInv(sys.aggregate, sys.calls[act.c], act.c, NextClient(sys, w, act), w.server)
  {
    var p, id, log := w.clients[act.c].phase, sys.calls[act.c].id, w.server.log;
    assert ApplyMessage(sys.aggregate, p.st, log[act.q - 1]) == Replay(sys.aggregate, log[..act.q], id) by {
      ReadNextExtendsReplay(sys.aggregate, id, log, p.next, act.q, p.st);
    }
    ReadUpTo(log, w.clients[act.c].since, id, act.q);
    hide Replay, ApplyMessage, CountFrom, LastSeq;
  }

  /** With none pending after sequence `q`, everything there was has been read. */
  lemma ReadUpTo<S, E>(log: seq<Message<S, E>>, since: nat, id: Id, q: nat)
    requires since <= |log|
    ensures CountFrom(log, id, q + 1) == 0 ==> LastSeq(log[..since], id) <= q
  {
    if CountFrom(log, id, q + 1) == 0 {
      NonePendingMeansRead(log, id, q + 1);
      LastSeqOfPrefix(log, since, id);
    }
  }

  /** The acting call's own phase after its read and local steps. */
  lemma ReadStepKeepsPhase<S, E>(sys: System<S, E>, w: World<S, E>, act: Action<E>)
    requires Enabled(sys, w, act) && !act.Publish?
    requires SnapshotsAgree(sys.aggregate, w.server.log)
    requires PhaseInv(sys.aggregate, sys.calls[act.c], act.c, w.clients[act.c], w.server)
    ensures PhaseInv(sys.aggregate, sys.calls[act.c], act.c, NextClient(sys, w, act), w.server)
  {
    match act
    case ReadSnapshot(_, _) => ReadSnapshotKeepsPhase(sys, w, act);
    case OpenConsumer(_) => OpenConsumerKeepsPhase(sys, w, act);
    case ReadNext(_, _) => ReadNextKeepsPhase(sys, w, act);
    case Mutate(_, events) =>
      var p := w.clients[act.c].phase;
      if events == [] {
        assert p.st == Replay(sys.aggregate, w.server.log[..p.version], sys.calls[act.c].id);
      }
    case _ =>
  }

  lemma StagedReplyAddsOne<S, E>(sys: System<S, E>, w: World<S, E>, c: nat)
    requires c < |w.clients| == |sys.calls| && w.clients[c].phase.Publishing?
    requires
      var p, id := w.clients[c].phase, sys.calls[c].id;
      StagedSoFar(w.server.staging, (c, w.clients[c].saves), id, p.version, Messages(sys.aggregate, id, p), p.sent)
    ensures Send(sys, w, c).1.StagedOnly? ==>
      var p, id, sv := w.clients[c].phase, sys.calls[c].id, Send(sys, w, c).0;
      && sv.log == w.server.log
      && StagedSoFar(sv.staging, (c, w.clients[c].saves), id, p.version, Messages(sys.aggregate, id, p), p.sent + 1)
  {
    var p := w.clients[c].phase;
    var ms := Messages(sys.aggregate, sys.calls[c].id, p);
    assert ms[..p.sent] + [ms[p.sent]] == ms[..p.sent + 1];
  }

  lemma PublishKeepsPhase<S, E>(sys: System<S, E>, w: World<S, E>, act: Action<E>)
    requires Enabled(sys, w, act) && act.Publish?
    requires PhaseInv(sys.aggregate, sys.calls[act.c], act.c, w.clients[act.c], w.server)
    ensures PhaseInv(sys.aggregate, sys.calls[act.c], act.c, NextClient(sys, w, act), Send(sys, w, act.c).0)
  {
    StagedReplyAddsOne(sys, w, act.c);
    var cl' := NextClient(sys, w, act);
    if cl'.phase.Publishing? {
      assert Send(sys, w, act.c).1.StagedOnly?;
    }
  }

  lemma StepKeepsBudget<S, E>(sys: System<S, E>, w: World<S, E>, act: Action<E>)
    requires Enabled(sys, w, act) && Budget(sys.calls[act.c], w.clients[act.c])
    ensures Budget(sys.calls[act.c], NextClient(sys, w, act))
  {
    var call, cl := sys.calls[act.c], w.clients[act.c];
    RefusalKeepsBudget(call, cl);
    if cl.phase.Publishing? {
      ConflictKeepsBudget(call, cl);
    }
    hide AfterConflict, AfterExecuteConflict;
  }

  lemma OutcomeStable<S, E>(history: seq<Commit<E>>, k: Commit<E>, c: nat, phase: Phase<S, E>)
    requires OutcomeTells(history, c, phase) && k.client != c
    ensures OutcomeTells(history + [k], c, phase)
  {
    if !Uncommitted(history, c) {
      var j :| 0 <= j < |history| && history[j].client == c;
      assert (history + [k])[j].client == c;
    }
  }

  lemma NextOutcome<S, E>(sys: System<S, E>, w: World<S, E>, act: Action<E>)
    requires Enabled(sys, w, act)
    requires OutcomeTells(w.history, act.c, w.clients[act.c].phase)
    ensures Uncommitted(w.history, act.c)
    ensures OutcomeTells(Next(sys, w, act).history, act.c, NextClient(sys, w, act).phase)
  {
    var h := Next(sys, w, act).history;
    if act.Publish? && Send(sys, w, act.c).1.Ack? {
      assert h[|w.history|].client == act.c;
    }
  }

  lemma StepKeepsCommitsOnce<S, E>(sys: System<S, E>, w: World<S, E>, act: Action<E>)
    requires CommitsOnce(w) && Enabled(sys, w, act)
    ensures CommitsOnce(Next(sys, w, act))
  {
    var w' := Next(sys, w, act);
    assert OutcomeTells(w.history, act.c, w.clients[act.c].phase);
    NextOutcome(sys, w, act);
    forall c | 0 <= c < |w'.clients| ensures OutcomeTells(w'.history, c, w'.clients[c].phase) {
      assert OutcomeTells(w.history, c, w.clients[c].phase);
      if c != act.c && w'.history != w.history {
        OutcomeStable(w.history, Last(w'.history), c, w.clients[c].phase);
      }
    }
  }

  lemma PublishKeepsOthers<S(!new), E(!new)>(sys: System<S, E>, w: World<S, E>, act: Action<E>, c: nat)
    requires Enabled(sys, w, act) && act.Publish?
    requires c < |w.clients| && c != act.c
    requires PhaseInv(sys.aggregate, sys.calls[act.c], act.c, w.clients[act.c], w.server)
    requires PhaseInv(sys.aggregate, sys.calls[c], c, w.clients[c], w.server)
    ensures PhaseInv(sys.aggregate, sys.calls[c], c, w.clients[c], Send(sys, w, act.c).0)
  {
    var owner, sv := sys.calls[act.c].id, Send(sys, w, act.c).0;
    SendTouchesOwnBatchOnly(sys, w, act.c, (c, w.clients[c].saves));
    var ms := if Send(sys, w, act.c).1.Ack? then Messages(sys.aggregate, owner, w.clients[act.c].phase) else [];
    AckAppendsWholeSave(sys, w, act.c);
    assert sv.log == w.server.log + ms;
    PhaseStable(sys.aggregate, sys.calls[c], c, w.clients[c], w.server, sv, ms, owner);
  }

  lemma StepKeepsSerial<S(!new), E(!new)>(sys: System<S, E>, w: World<S, E>, act: Action<E>)
    requires Enabled(sys, w, act)
    requires SerialHistory(sys, w.history, w.server.log)
    requires PhaseInv(sys.aggregate, sys.calls[act.c], act.c, w.clients[act.c], w.server)
    ensures var w' := Next(sys, w, act); SerialHistory(sys, w'.history, w'.server.log)
  {
    if act.Publish? {
      if Send(sys, w, act.c).1.Ack? {
        var cl := w.clients[act.c];
        var p := cl.phase;
        var k := Commit(act.c, |w.server.log|, cl.attempt, p.version, p.events, p.lastSnapshot, p.snapshot);
        AckIsSerialCommit(sys, w, act.c);
        SerialAppend(sys, w.history, w.server.log, k, Messages(sys.aggregate, sys.calls[act.c].id, p));
      } else {
        SendTouchesOwnBatchOnly(sys, w, act.c, (act.c + 1, 0));
      }
    }
  }

  lemma StepKeepsOwnPhase<S(!new), E(!new)>(sys: System<S, E>, w: World<S, E>, act: Action<E>)
    requires WellFormed(sys) && Enabled(sys, w, act)
    requires SerialHistory(sys, w.history, w.server.log)
    requires PhaseInv(sys.aggregate, sys.calls[act.c], act.c, w.clients[act.c], w.server)
    ensures PhaseInv(sys.aggregate, sys.calls[act.c], act.c, NextClient(sys, w, act), Next(sys, w, act).server)
  {
    if act.Publish? {
      PublishKeepsPhase(sys, w, act);
    } else {
      SerialSnapshotsAgree(sys, w.history, w.server.log);
      ReadStepKeepsPhase(sys, w, act);
    }
  }

  lemma StepKeepsOtherPhase<S(!new), E(!new)>(sys: System<S, E>, w: World<S, E>, act: Action<E>, c: nat)
    requires Enabled(sys, w, act) && c < |w.clients| && c != act.c
    requires PhaseInv(sys.aggregate, sys.calls[act.c], act.c, w.clients[act.c], w.server)
    requires PhaseInv(sys.aggregate, sys.calls[c], c, w.clients[c], w.server)
    ensures PhaseInv(sys.aggregate, sys.calls[c], c, w.clients[c], Next(sys, w, act).server)
  {
    if act.Publish? { PublishKeepsOthers(sys, w, act, c); }
  }

  /** The step lemma: whatever the acting call does, every part of the invariant survives. */
  lemma StepKeepsInv<S(!new), E(!new)>(sys: System<S, E>, w: World<S, E>, act: Action<E>)
    requires WellFormed(sys) && Inv(sys, w) && Enabled(sys, w, act)
    ensures Inv(sys, Next(sys, w, act))
  {
    assert ClientInv(sys, w, act.c);
    StepKeepsCommitsOnce(sys, w, act);
    StepKeepsSerial(sys, w, act);
    forall c | 0 <= c < |w.clients| ensures ClientInv(sys, Next(sys, w, act), c) {
      assert ClientInv(sys, w, c);
      if c == act.c {
        StepKeepsOwnPhase(sys, w, act);
        StepKeepsBudget(sys, w, act);
      } else {
        StepKeepsOtherPhase(sys, w, act, c);
      }
    }
  }

  lemma {:induction false} RunKeepsInv<S(!new), E(!new)>(sys: System<S, E>, acts: seq<Action<E>>)
    requires WellFormed(sys)
    ensures Inv(sys, Run(sys, acts))
  {
    if acts != [] {
      RunKeepsInv(sys, Init(acts));
      var w := Run(sys, Init(acts));
      if Enabled(sys, w, Last(acts)) {
        StepKeepsInv(sys, w, Last(acts));
      }
    }
  }

  // ----------------------------------------------------------- main results

  /** The log length at which committed save `j` starts; the end of the log for `j == |history|`. */
  function Boundary<E>(history: seq<Commit<E>>, end: nat, j: nat): nat
    requires j <= |history|
  {
    if j < |history| then history[j].base else end
  }

  /** Committed save `j` is the stretch of the log from its base to the next one's,
      and it is serial with respect to everything before it. */
  ghost predicate CommittedAt<S, E>(sys: System<S, E>, history: seq<Commit<E>>, log: seq<Message<S, E>>, j: nat)
    requires j < |history|
  {
    var k, end := history[j], Boundary(history, |log|, j + 1);
    && k.client < |sys.calls| && k.base < end <= |log|
    && SerialCommit(sys.aggregate, sys.calls[k.client], log[..k.base], log[k.base..end], k)
  }

  lemma CommittedAtExtends<S, E>(
      sys: System<S, E>, history: seq<Commit<E>>, log: seq<Message<S, E>>, j: nat)
    requires j + 1 < |history| && Last(history).base <= |log|
    requires CommittedAt(sys, Init(history), log[..Last(history).base], j)
    ensures CommittedAt(sys, history, log, j)
  {
    var k, base := history[j], Last(history).base;
    var end := Boundary(history, |log|, j + 1);
    assert Boundary(Init(history), base, j + 1) == end;
    assert log[..base][..k.base] == log[..k.base];
    assert log[..base][k.base..end] == log[k.base..end];
  }

  lemma {:induction false} SerialHistoryAt<S, E>(
      sys: System<S, E>, history: seq<Commit<E>>, log: seq<Message<S, E>>, j: nat)
    requires SerialHistory(sys, history, log) && j < |history|
    ensures CommittedAt(sys, history, log, j)
    decreases |history|
  {
    var last := Last(history);
    if j + 1 < |history| {
      SerialHistoryAt(sys, Init(history), log[..last.base], j);
      CommittedAtExtends(sys, history, log, j);
    } else {
      assert log[last.base..|log|] == log[last.base..];
    }
  }

  /** MAIN RESULT: every interleaving is serial. At every moment of every run the log
      is cut into the committed saves, each contiguous and whole, in commit order, each
      an output of its `mutate` on the full replay of everything committed before it.
      No update is lost and no part of a save is ever visible without the rest. */
  lemma RunsAreSerial<S(!new), E(!new)>(sys: System<S, E>, acts: seq<Action<E>>)
    requires WellFormed(sys)
    ensures
      var w := Run(sys, acts);
      && Boundary(w.history, |w.server.log|, 0) == 0
      && forall j | 0 <= j < |w.history| :: CommittedAt(sys, w.history, w.server.log, j)
  {
    RunKeepsInv(sys, acts);
    var w := Run(sys, acts);
    forall j | 0 <= j < |w.history| ensures CommittedAt(sys, w.history, w.server.log, j) {
      SerialHistoryAt(sys, w.history, w.server.log, j);
    }
    FirstCommitStartsAtZero(sys, w.history, w.server.log);
  }

  /** Committed save `j`, message by message. */
  ghost predicate WrittenAt<S, E>(sys: System<S, E>, history: seq<Commit<E>>, log: seq<Message<S, E>>, j: nat)
    requires j < |history|
  {
    var k, end := history[j], Boundary(history, |log|, j + 1);
    && k.client < |sys.calls| && end <= |log|
    && end == k.base + |k.events| + (if k.snapshot then 1 else 0)
    && (forall i | 0 <= i < |k.events| :: log[k.base + i] == EventMessage(sys.calls[k.client].id, k.events[i]))
    && (k.snapshot ==>
          var id := sys.calls[k.client].id;
          log[end - 1] == SnapshotMessage(id, Replay(sys.aggregate, log[..end - 1], id)))
  }

  /** MAIN RESULT: in every run each committed save is in the log as its events, in order, and
      if a snapshot belongs to it then right after them, of the state they lead to. */
  lemma SavesAreWritten<S(!new), E(!new)>(sys: System<S, E>, acts: seq<Action<E>>, j: nat)
    requires WellFormed(sys) && j < |Run(sys, acts).history|
    ensures WrittenAt(sys, Run(sys, acts).history, Run(sys, acts).server.log, j)
  {
    var w := Run(sys, acts);
    RunsAreSerial(sys, acts);
    RunSnapshotsAgree(sys, acts);
    hide Run, CommittedAt, SnapshotsAgree, WrittenAt;
    CommittedIsWritten(sys, w.history, w.server.log, j);
  }

  lemma CommittedIsWritten<S, E>(sys: System<S, E>, history: seq<Commit<E>>, log: seq<Message<S, E>>, j: nat)
    requires j < |history| && CommittedAt(sys, history, log, j) && SnapshotsAgree(sys.aggregate, log)
    ensures WrittenAt(sys, history, log, j)
  {
    hide Replay, ApplyAll, CountFrom, LastSeq;
    var k, end := history[j], Boundary(history, |log|, j + 1);
    var written, id := log[k.base..end], sys.calls[k.client].id;
    BatchIs(sys.aggregate, id, Replay(sys.aggregate, log[..k.base], id), k.events, k.snapshot);
    hide Batch;
    forall i | 0 <= i < |k.events| ensures log[k.base + i] == EventMessage(id, k.events[i]) {
      assert log[k.base + i] == written[i];
    }
    if k.snapshot {
      assert log[end - 1] == written[|k.events|];
    }
  }

  lemma BatchIs<S, E>(a: Aggregate<S, E>, id: Id, st: S, events: seq<E>, snapshot: bool)
    ensures
      var ms := Batch(a, id, st, events, snapshot);
      && (forall i | 0 <= i < |events| :: ms[i] == EventMessage(id, events[i]))
      && (snapshot ==> ms[|events|].SnapshotMessage? && ms[|events|].id == id)
  {
  }

  lemma {:induction false} FirstCommitStartsAtZero<S, E>(
      sys: System<S, E>, history: seq<Commit<E>>, log: seq<Message<S, E>>)
    requires SerialHistory(sys, history, log)
    ensures Boundary(history, |log|, 0) == 0
    decreases |history|
  {
    if history != [] {
      FirstCommitStartsAtZero(sys, Init(history), log[..Last(history).base]);
    }
  }

  /** MAIN RESULT: in every run, a load that finished returned exactly the full replay
      up to the version it returned, whichever snapshot it started from and whatever
      landed between its steps; that version is 0 or one of the aggregate's messages, and no
      message of the aggregate that was there when the load began comes after it. */
  lemma LoadsReturnFullReplay<S(!new), E(!new)>(sys: System<S, E>, acts: seq<Action<E>>, c: nat)
    requires WellFormed(sys) && c < |sys.calls|
    ensures
      var w := Run(sys, acts);
      && |w.clients| == |sys.calls|
      && (w.clients[c].phase.Loaded? ==>
            var p, log, id := w.clients[c].phase, w.server.log, sys.calls[c].id;
            && p.version <= |log|
            && (p.version == 0 || log[p.version - 1].id == id)
            && p.st == Replay(sys.aggregate, log[..p.version], id)
            && w.clients[c].since <= |log| && LastSeq(log[..w.clients[c].since], id) <= p.version)
  {
    RunKeepsInv(sys, acts);
    var w := Run(sys, acts);
    assert ClientInv(sys, w, c);
    hide Run, Replay, LastSeq, SerialHistory, CommitsOnce;
  }

  lemma RunSnoc<S, E>(sys: System<S, E>, acts: seq<Action<E>>, act: Action<E>)
    ensures
      var w := Run(sys, acts);
      Run(sys, acts + [act]) == if Enabled(sys, w, act) then Next(sys, w, act) else w
  {
    assert Init(acts + [act]) == acts && Last(acts + [act]) == act;
  }

  /** One step only adds to the log, and only a load's first step moves `since`. */
  lemma StepGrowsLog<S, E>(sys: System<S, E>, w: World<S, E>, act: Action<E>, c: nat)
    requires Enabled(sys, w, act) && c < |w.clients|
    ensures var w' := Next(sys, w, act); w.server.log <= w'.server.log && |w'.clients| == |w.clients|
    ensures !(act.ReadSnapshot? && act.c == c) ==> Next(sys, w, act).clients[c].since == w.clients[c].since
    ensures act.ReadSnapshot? && act.c == c ==> Next(sys, w, act).clients[c].since == |w.server.log|
  {
    hide Replay, ApplyMessage, CountFrom, LastSeq, SnapshotAt, NextAt, ApplyAll;
  }

  lemma {:induction false} SinceStays<S(!new), E(!new)>(
      sys: System<S, E>, before: seq<Action<E>>, at: nat, after: seq<Action<E>>, c: nat)
    requires Enabled(sys, Run(sys, before), ReadSnapshot(c, at))
    requires forall a | a in after :: !(a.ReadSnapshot? && a.c == c)
    ensures
      var w0, w := Run(sys, before), Run(sys, before + [ReadSnapshot(c, at)] + after);
      w0.server.log <= w.server.log && |w.clients| == |w0.clients| && w.clients[c].since == |w0.server.log|
    decreases |after|
  {
    hide Next, Run, Enabled;
    var start := before + [ReadSnapshot(c, at)];
    if after == [] {
      assert start + after == start;
      RunSnoc(sys, before, ReadSnapshot(c, at));
      StepIsOfCall(sys, Run(sys, before), ReadSnapshot(c, at));
      StepGrowsLog(sys, Run(sys, before), ReadSnapshot(c, at), c);
    } else {
      var acts, act := start + Init(after), Last(after);
      assert start + after == acts + [act] && act in after;
      assert forall a | a in Init(after) :: a in after;
      SinceStays(sys, before, at, Init(after), c);
      StepIsOfCall(sys, Run(sys, before), ReadSnapshot(c, at));
      RunSnoc(sys, acts, act);
      if Enabled(sys, Run(sys, acts), act) {
        StepGrowsLog(sys, Run(sys, acts), act, c);
      }
    }
  }

  lemma StepIsOfCall<S, E>(sys: System<S, E>, w: World<S, E>, act: Action<E>)
    requires Enabled(sys, w, act)
    ensures act.c < |w.clients|
  {
  }

  /** MAIN RESULT: a load misses nothing. If it began at some point of a run and has returned at
      a later one, no message that was in the log when it began is one of the aggregate's and
      comes after the version it returned. */
  lemma LoadsMissNothing<S(!new), E(!new)>(
      sys: System<S, E>, before: seq<Action<E>>, at: nat, after: seq<Action<E>>, c: nat)
    requires WellFormed(sys) && c < |sys.calls| && Enabled(sys, Run(sys, before), ReadSnapshot(c, at))
    requires forall a | a in after :: !(a.ReadSnapshot? && a.c == c)
    ensures
      var w0, w := Run(sys, before), Run(sys, before + [ReadSnapshot(c, at)] + after);
      && |w.clients| == |sys.calls|
      && (w.clients[c].phase.Loaded? ==> LastSeq(w0.server.log, sys.calls[c].id) <= w.clients[c].phase.version)
  {
    var w0, w := Run(sys, before), Run(sys, before + [ReadSnapshot(c, at)] + after);
    LoadsReturnFullReplay(sys, before + [ReadSnapshot(c, at)] + after, c);
    SinceStays(sys, before, at, after, c);
    assert w.server.log[..|w0.server.log|] == w0.server.log;
  }

  /** MAIN RESULT: every snapshot in every reachable log equals full replay. */
  lemma RunSnapshotsAgree<S(!new), E(!new)>(sys: System<S, E>, acts: seq<Action<E>>)
    requires WellFormed(sys)
    ensures SnapshotsAgree(sys.aggregate, Run(sys, acts).server.log)
  {
    RunKeepsInv(sys, acts);
    var w := Run(sys, acts);
    SerialSnapshotsAgree(sys, w.history, w.server.log);
  }

  lemma BudgetBoundsSaves<S, E>(call: Call<S, E>, cl: Client<S, E>)
    requires Budget(call, cl)
    ensures cl.saves <= call.rounds * call.maxAttempts
  {
    BudgetSteps(call.rounds, call.maxAttempts, cl.round, cl.attempt);
  }

  /** MAIN RESULT: a call commits at most once however often it retries and whether or
      not its acknowledgement arrives; a call that saw only conflicts, or had nothing to
      save, committed nothing; one that reports success committed exactly once; and a
      call never saves more than its tries times its attempts. */
  lemma CallsCommitAtMostOnce<S(!new), E(!new)>(sys: System<S, E>, acts: seq<Action<E>>, c: nat)
    requires WellFormed(sys) && c < |sys.calls|
    ensures
      var w := Run(sys, acts);
      && |w.clients| == |sys.calls|
      && (forall j, k | 0 <= j < |w.history| && 0 <= k < |w.history|
          && w.history[j].client == w.history[k].client == c :: j == k)
      && (w.clients[c].phase == Finished(Saved) ==> exists k :: 0 <= k < |w.history| && w.history[k].client == c)
      && (!w.clients[c].phase.Finished? ||
          w.clients[c].phase.outcome in {NothingToSave, ConflictExhausted, MutateConflict} ==>
            forall k | 0 <= k < |w.history| :: w.history[k].client != c)
      && w.clients[c].saves <= sys.calls[c].rounds * sys.calls[c].maxAttempts
  {
    RunKeepsInv(sys, acts);
    var w := Run(sys, acts);
    assert ClientInv(sys, w, c);
    BudgetBoundsSaves(sys.calls[c], w.clients[c]);
    assert OutcomeTells(w.history, c, w.clients[c].phase);
  }

  /** One save with a due-snapshot rule of `every` keeps the tail of each aggregate short. */
  lemma CommitKeepsTailShort<S, E>(
      a: Aggregate<S, E>, call: Call<S, E>, before: seq<Message<S, E>>, written: seq<Message<S, E>>, k: Commit<E>,
          id: Id)
    requires call.every > 0
    requires SerialCommit(a, call, before, written, k)
    requires Tail(before, id) < call.every
    ensures Tail(before + written, id) < call.every
  {
    if id != call.id {
      OthersKeepTail(before, written, id);
    } else if k.snapshot {
      assert Last(before + written) == Last(written);
      SnapshotEmptiesTail(before + written, id);
    } else {
      StaleCountIsNoLess(before, id, k.lastSnapshot);
      EventsLengthenTail<S, E>(before, id, k.events);
      assert written == EventMessages(id, k.events);
    }
  }

  lemma {:induction false} SerialTailsShort<S, E>(
      sys: System<S, E>, history: seq<Commit<E>>, log: seq<Message<S, E>>, every: nat, id: Id)
    requires SerialHistory(sys, history, log)
    requires every > 0 && forall i | 0 <= i < |sys.calls| :: sys.calls[i].every == every
    ensures Tail(log, id) < every
    decreases |history|
  {
    if history != [] {
      var k := Last(history);
      var before, written := log[..k.base], log[k.base..];
      SerialTailsShort(sys, Init(history), before, every, id);
      CommitKeepsTailShort(sys.aggregate, sys.calls[k.client], before, written, k, id);
      assert log == before + written;
    }
  }

  /** MAIN RESULT: when every writer uses the same `SnapshotEvery` > 0, no reachable log
      has that many messages of one aggregate after its latest snapshot, although the
      count is taken in separate steps before the save and may rest on a stale snapshot. */
  lemma TailsStayShort<S(!new), E(!new)>(sys: System<S, E>, acts: seq<Action<E>>, every: nat, id: Id)
    requires WellFormed(sys)
    requires every > 0 && forall i | 0 <= i < |sys.calls| :: sys.calls[i].every == every
    ensures Tail(Run(sys, acts).server.log, id) < every
  {
    RunKeepsInv(sys, acts);
    var w := Run(sys, acts);
    SerialTailsShort(sys, w.history, w.server.log, every, id);
  }

  /** The snapshot of committed save `j` has at least `SnapshotEvery` messages of its aggregate
      between some earlier snapshot of it, or the beginning, and itself. */
  ghost predicate DueAt<S, E>(sys: System<S, E>, history: seq<Commit<E>>, log: seq<Message<S, E>>, j: nat)
    requires j < |history|
  {
    var k, end := history[j], Boundary(history, |log|, j + 1);
    && k.client < |sys.calls| && 0 < end <= |log|
    && var id, before := sys.calls[k.client].id, log[..end - 1];
       && 0 < sys.calls[k.client].every
       && exists last: nat ::
            IsSnapshotOrNone(before, id, last) && sys.calls[k.client].every <= CountFrom(before, id, last + 1)
  }

  lemma WrittenIsDue<S, E>(sys: System<S, E>, history: seq<Commit<E>>, log: seq<Message<S, E>>, j: nat)
    requires j < |history| && CommittedAt(sys, history, log, j) && WrittenAt(sys, history, log, j)
    requires history[j].snapshot
    ensures DueAt(sys, history, log, j)
  {
    hide Replay, CountFrom, LastSeq, ApplyAll, Batch;
    var k, end := history[j], Boundary(history, |log|, j + 1);
    var id := sys.calls[k.client].id;
    assert log[..end - 1] == log[..k.base] + EventMessages(id, k.events);
    CountFromEvents<S, E>(log[..k.base], id, k.events, k.lastSnapshot + 1);
    assert IsSnapshotOrNone(log[..end - 1], id, k.lastSnapshot);
  }

  /** MAIN RESULT: in no run does a snapshot come early. */
  lemma SnapshotsAreDue<S(!new), E(!new)>(sys: System<S, E>, acts: seq<Action<E>>, j: nat)
    requires WellFormed(sys) && j < |Run(sys, acts).history| && Run(sys, acts).history[j].snapshot
    ensures DueAt(sys, Run(sys, acts).history, Run(sys, acts).server.log, j)
  {
    RunsAreSerial(sys, acts);
    SavesAreWritten(sys, acts, j);
    hide Run, CommittedAt, WrittenAt, DueAt;
    WrittenIsDue(sys, Run(sys, acts).history, Run(sys, acts).server.log, j);
  }

  /** MAIN RESULT: a call that reports conflicts only did not give up early. It was in its last
      attempt of its last try, and unless `mutate` itself reported conflicts it made every one
      of its saves; a call with nothing to save was told so by `mutate`. */
  lemma GivesUpOnlyAtTheEnd<S(!new), E(!new)>(sys: System<S, E>, acts: seq<Action<E>>, c: nat)
    requires WellFormed(sys) && c < |sys.calls|
    ensures
      var w, call := Run(sys, acts), sys.calls[c];
      && |w.clients| == |sys.calls|
      && var cl := w.clients[c];
         && (cl.phase == Finished(ConflictExhausted) ==>
               && cl.round + 1 == call.rounds && cl.attempt + 1 == call.maxAttempts
               && (cl.refusals == 0 ==> cl.saves == call.rounds * call.maxAttempts))
         && (cl.phase == Finished(MutateConflict) ==> cl.round + 1 == call.rounds && cl.refusals > 0)
         && (cl.phase == Finished(NothingToSave) ==>
               HadNothing(sys.aggregate, call, w.server.log, cl.attempt))
  {
    RunKeepsInv(sys, acts);
    assert ClientInv(sys, Run(sys, acts), c);
    hide Run, SerialHistory, CommitsOnce, HadNothing;
  }

  // ------------------------------------------------------------- fresh lookups

  /** Every lookup for a save finds the latest snapshot there is; a lagging replica may not. */
  ghost predicate FreshRun<S, E>(sys: System<S, E>, acts: seq<Action<E>>) {
    acts == [] ||
    (FreshRun(sys, Init(acts)) && FreshLookup(sys, Run(sys, Init(acts)), Last(acts)))
  }

  ghost predicate FreshLookup<S, E>(sys: System<S, E>, w: World<S, E>, act: Action<E>) {
    act.ReadSnapshotSeq? && act.c < |sys.calls| ==> act.at == LastSnapshot(w.server.log, sys.calls[act.c].id)
  }

  /** What was looked up is the latest snapshot for as long as the save can still commit. */
  ghost predicate FreshPhase<S, E>(call: Call<S, E>, phase: Phase<S, E>, log: seq<Message<S, E>>) {
    && (phase.Counting? ==> LastSeq(log, call.id) == phase.version ==> phase.lastSnapshot == LastSnapshot(log, call.id))
    && (phase.Publishing? && call.every > 0 ==>
          LastSeq(log, call.id) == phase.version ==> phase.lastSnapshot == LastSnapshot(log, call.id))
  }

  ghost predicate FreshCommit<S, E>(sys: System<S, E>, log: seq<Message<S, E>>, k: Commit<E>) {
    k.client < |sys.calls| && k.base <= |log| &&
    (sys.calls[k.client].every > 0 ==> k.lastSnapshot == LastSnapshot(log[..k.base], sys.calls[k.client].id))
  }

  ghost predicate Fresh<S, E>(sys: System<S, E>, w: World<S, E>) {
    && |w.clients| == |sys.calls|
    && (forall c | 0 <= c < |w.clients| :: FreshPhase(sys.calls[c], w.clients[c].phase, w.server.log))
    && (forall j | 0 <= j < |w.history| :: FreshCommit(sys, w.server.log, w.history[j]))
  }

  lemma FreshPhaseStable<S, E>(
      call: Call<S, E>, phase: Phase<S, E>, log: seq<Message<S, E>>, ms: seq<Message<S, E>>, owner: Id)
    requires FreshPhase(call, phase, log) && forall m | m in ms :: m.id == owner
    requires phase.Counting? || phase.Publishing? ==> phase.version <= |log|
    ensures FreshPhase(call, phase, log + ms)
  {
    if ms == [] {
      assert log + ms == log;
    } else if owner == call.id {
      OwnAppendMovesLastSeq(log, ms, call.id);
    } else {
      OthersInvisible(log, ms, call.id, 0);
    }
  }

  lemma FreshCommitStable<S, E>(sys: System<S, E>, log: seq<Message<S, E>>, ms: seq<Message<S, E>>, k: Commit<E>)
    requires FreshCommit(sys, log, k)
    ensures FreshCommit(sys, log + ms, k)
  {
    assert (log + ms)[..k.base] == log[..k.base];
  }

  lemma VersionInLog<S, E>(a: Aggregate<S, E>, call: Call<S, E>, c: nat, cl: Client<S, E>, sv: Server<S, E>)
    requires PhaseInv(a, call, c, cl, sv)
    ensures cl.phase.Counting? || cl.phase.Publishing? ==> cl.phase.version <= |sv.log|
  {
  }

  /** What one step appends: the whole save it commits, or nothing. */
  ghost function Appended<S, E>(sys: System<S, E>, w: World<S, E>, act: Action<E>): seq<Message<S, E>>
    requires Enabled(sys, w, act)
  {
    if act.Publish? && Send(sys, w, act.c).1.Ack?
    then Messages(sys.aggregate, sys.calls[act.c].id, w.clients[act.c].phase)
    else []
  }

  lemma StepAppends<S, E>(sys: System<S, E>, w: World<S, E>, act: Action<E>)
    requires Enabled(sys, w, act)
    requires PhaseInv(sys.aggregate, sys.calls[act.c], act.c, w.clients[act.c], w.server)
    ensures Next(sys, w, act).server.log == w.server.log + Appended(sys, w, act)
    ensures forall m | m in Appended(sys, w, act) :: m.id == sys.calls[act.c].id
  {
    if act.Publish? {
      AckAppendsWholeSave(sys, w, act.c);
      SendTouchesOwnBatchOnly(sys, w, act.c, (act.c + 1, 0));
    }
  }

  /** The acting call's own lookup, seen on the log before the step. */
  lemma OwnPhaseFresh<S, E>(sys: System<S, E>, w: World<S, E>, act: Action<E>)
    requires Enabled(sys, w, act) && FreshLookup(sys, w, act)
    requires FreshPhase(sys.calls[act.c], w.clients[act.c].phase, w.server.log)
    ensures FreshPhase(sys.calls[act.c], NextClient(sys, w, act).phase, w.server.log)
  {
    hide LastSeq, LastSnapshot, CountFrom, Replay, ApplyMessage, Send;
  }

  lemma NextPublishing<S, E>(sys: System<S, E>, w: World<S, E>, act: Action<E>)
    requires Enabled(sys, w, act) && act.Publish? && Send(sys, w, act.c).1.Ack?
    ensures !NextClient(sys, w, act).phase.Counting? && !NextClient(sys, w, act).phase.Publishing?
  {
  }

  lemma StepKeepsFresh<S(!new), E(!new)>(sys: System<S, E>, w: World<S, E>, act: Action<E>)
    requires Inv(sys, w) && Fresh(sys, w) && Enabled(sys, w, act) && FreshLookup(sys, w, act)
    ensures Fresh(sys, Next(sys, w, act))
  {
    var w', ms, owner := Next(sys, w, act), Appended(sys, w, act), sys.calls[act.c].id;
    assert ClientInv(sys, w, act.c);
    StepAppends(sys, w, act);
    forall c | 0 <= c < |w'.clients| ensures FreshPhase(sys.calls[c], w'.clients[c].phase, w'.server.log) {
      assert ClientInv(sys, w, c);
      VersionInLog(sys.aggregate, sys.calls[c], c, w.clients[c], w.server);
      if c != act.c {
        FreshPhaseStable(sys.calls[c], w.clients[c].phase, w.server.log, ms, owner);
      } else if ms == [] {
        assert w.server.log + ms == w.server.log;
        OwnPhaseFresh(sys, w, act);
      } else {
        NextPublishing(sys, w, act);
      }
    }
    StepKeepsFreshHistory(sys, w, act);
    hide FreshPhase, FreshCommit, NextClient, Appended;
  }

  lemma StepKeepsFreshHistory<S(!new), E(!new)>(sys: System<S, E>, w: World<S, E>, act: Action<E>)
    requires Inv(sys, w) && Fresh(sys, w) && Enabled(sys, w, act)
    ensures
      var w' := Next(sys, w, act);
      forall j | 0 <= j < |w'.history| :: FreshCommit(sys, w'.server.log, w'.history[j])
  {
    var w', ms := Next(sys, w, act), Appended(sys, w, act);
    assert ClientInv(sys, w, act.c);
    StepAppends(sys, w, act);
    if act.Publish? {
      AckAppendsWholeSave(sys, w, act.c);
    }
    assert w'.server.log[..|w.server.log|] == w.server.log;
    hide NextClient, LastSnapshot, LastSeq;
    forall j | 0 <= j < |w'.history| ensures FreshCommit(sys, w'.server.log, w'.history[j]) {
      if j < |w.history| {
        FreshCommitStable(sys, w.server.log, ms, w.history[j]);
      }
    }
  }

  lemma {:induction false} FreshRunIsFresh<S(!new), E(!new)>(sys: System<S, E>, acts: seq<Action<E>>)
    requires WellFormed(sys) && FreshRun(sys, acts)
    ensures Fresh(sys, Run(sys, acts))
  {
    if acts != [] {
      var w, act := Run(sys, Init(acts)), Last(acts);
      FreshRunIsFresh(sys, Init(acts));
      RunKeepsInv(sys, Init(acts));
      hide Fresh, Inv, Next, Enabled;
      if Enabled(sys, w, act) {
        StepKeepsFresh(sys, w, act);
      }
    }
  }

  /** MAIN RESULT: with fresh lookups snapshots come exactly on time: a committed save carries one
      if and only if its events and the aggregate's messages after its latest snapshot are
      `SnapshotEvery` or more. */
  lemma SnapshotsOnTime<S(!new), E(!new)>(sys: System<S, E>, acts: seq<Action<E>>, j: nat)
    requires WellFormed(sys) && FreshRun(sys, acts) && j < |Run(sys, acts).history|
    ensures
      var w := Run(sys, acts);
      var k := w.history[j];
      && k.client < |sys.calls| && k.base <= |w.server.log|
      && var call := sys.calls[k.client];
         k.snapshot <==> 0 < call.every <= Tail(w.server.log[..k.base], call.id) + |k.events|
  {
    var w := Run(sys, acts);
    RunsAreSerial(sys, acts);
    FreshRunIsFresh(sys, acts);
    assert CommittedAt(sys, w.history, w.server.log, j);
    assert FreshCommit(sys, w.server.log, w.history[j]);
    hide Run, Replay, CountFrom, LastSeq, LastSnapshot, Batch, FreshRun, WellFormed;
  }

  // ------------------------------------------------------------ reading after a snapshot

  /** A load served the snapshot at `at` is past it from then on. */
  ghost predicate PastSnapshot<S, E>(phase: Phase<S, E>, at: nat) {
    match phase
    case SnapshotRead(start, _) => start == if at == 0 then 0 else at + 1
    case Reading(next, _, _) => at < next
    case Loaded(version, _) => at <= version
    case Ready => false
    case _ => true
  }

  lemma StepKeepsPast<S, E>(sys: System<S, E>, w: World<S, E>, act: Action<E>, c: nat, at: nat)
    requires Enabled(sys, w, act) && c < |w.clients|
    requires !(act.ReadSnapshot? && act.c == c)
    requires PastSnapshot(w.clients[c].phase, at)
    ensures
      var cl := Next(sys, w, act).clients[c];
      cl.phase.Ready? || PastSnapshot(cl.phase, at)
  {
    hide LastSeq, CountFrom, Replay, ApplyMessage, Send, Messages;
  }

  lemma {:induction false} StaysPast<S(!new), E(!new)>(
      sys: System<S, E>, before: seq<Action<E>>, at: nat, after: seq<Action<E>>, c: nat)
    requires Enabled(sys, Run(sys, before), ReadSnapshot(c, at))
    requires forall a | a in after :: !(a.ReadSnapshot? && a.c == c)
    ensures
      var w := Run(sys, before + [ReadSnapshot(c, at)] + after);
      c < |w.clients| && (w.clients[c].phase.Ready? || PastSnapshot(w.clients[c].phase, at))
    decreases |after|
  {
    var start := before + [ReadSnapshot(c, at)];
    if after == [] {
      assert start + after == start;
      RunSnoc(sys, before, ReadSnapshot(c, at));
    } else {
      var acts, act := start + Init(after), Last(after);
      assert start + after == acts + [act] && act in after;
      assert forall a | a in Init(after) :: a in after;
      hide Next, Run, Enabled, PastSnapshot;
      StaysPast(sys, before, at, Init(after), c);
      RunSnoc(sys, acts, act);
      if Enabled(sys, Run(sys, acts), act) {
        StepGrowsLog(sys, Run(sys, acts), act, c);
        ReadyOrPast(sys, Run(sys, acts), act, c, at);
      }
    }
  }

  lemma ReadyOrPast<S, E>(sys: System<S, E>, w: World<S, E>, act: Action<E>, c: nat, at: nat)
    requires Enabled(sys, w, act) && c < |w.clients| && !(act.ReadSnapshot? && act.c == c)
    requires w.clients[c].phase.Ready? || PastSnapshot(w.clients[c].phase, at)
    ensures
      var cl := Next(sys, w, act).clients[c];
      cl.phase.Ready? || PastSnapshot(cl.phase, at)
  {
    if w.clients[c].phase.Ready? {
      ReadyStays(sys, w, act, c);
    } else {
      StepKeepsPast(sys, w, act, c, at);
    }
  }

  lemma ReadyStays<S, E>(sys: System<S, E>, w: World<S, E>, act: Action<E>, c: nat)
    requires Enabled(sys, w, act) && c < |w.clients| && !(act.ReadSnapshot? && act.c == c)
    requires w.clients[c].phase.Ready?
    ensures Next(sys, w, act).clients[c].phase.Ready? || Next(sys, w, act).clients[c].phase == Finished(Failed)
  {
    hide LastSeq, CountFrom, Replay, ApplyMessage, Send, Messages;
  }

  /** MAIN RESULT: a load that was served a snapshot reads no message up to it again, and
      returns at least its version. */
  lemma LoadsStartAfterSnapshot<S(!new), E(!new)>(
      sys: System<S, E>, before: seq<Action<E>>, at: nat, after: seq<Action<E>>, c: nat)
    requires Enabled(sys, Run(sys, before), ReadSnapshot(c, at))
    requires forall a | a in after :: !(a.ReadSnapshot? && a.c == c)
    ensures
      var w := Run(sys, before + [ReadSnapshot(c, at)] + after);
      && c < |w.clients| && |w.clients| == |sys.calls|
      && (forall q | Enabled(sys, w, ReadNext(c, q)) :: at < q)
      && (w.clients[c].phase.Loaded? ==> at <= w.clients[c].phase.version)
  {
    StaysPast(sys, before, at, after, c);
    SinceStays(sys, before, at, after, c);
    hide Run;
  }

  // ------------------------------------------------------------ ending and going on

  /** What can end a call in failure: an error of a load, of marshalling or of a request, an
      error of `mutate`, or a lost acknowledgement. */
  predicate Faulty<E>(act: Action<E>) {
    act.Fail? || (act.MutateError? && !act.conflict) || (act.Publish? && act.ackLost)
  }

  /** The server never rejects a message of a batch as out of order. */
  lemma NeverRejected<S, E>(sys: System<S, E>, w: World<S, E>, c: nat)
    requires c < |w.clients| == |sys.calls| && w.clients[c].phase.Publishing?
    requires PhaseInv(sys.aggregate, sys.calls[c], c, w.clients[c], w.server)
    ensures !Send(sys, w, c).1.Rejected?
  {
  }

  lemma StepFailsOnlyByFault<S, E>(sys: System<S, E>, w: World<S, E>, act: Action<E>)
    requires Enabled(sys, w, act) && !Faulty(act)
    requires PhaseInv(sys.aggregate, sys.calls[act.c], act.c, w.clients[act.c], w.server)
    ensures NextClient(sys, w, act).phase != Finished(Failed)
  {
    if act.Publish? {
      NeverRejected(sys, w, act.c);
    }
    hide PhaseInv, Send, Replay, CountFrom, LastSeq, ApplyMessage;
  }

  /** MAIN RESULT: without faults no call fails: it ends saved, with nothing to save, or in a
      conflict. */
  lemma {:induction false} FaultlessRunsNeverFail<S(!new), E(!new)>(sys: System<S, E>, acts: seq<Action<E>>, c: nat)
    requires WellFormed(sys) && c < |sys.calls| && forall a | a in acts :: a.c == c ==> !Faulty(a)
    ensures |Run(sys, acts).clients| == |sys.calls| && Run(sys, acts).clients[c].phase != Finished(Failed)
  {
    RunKeepsInv(sys, acts);
    if acts != [] {
      var w, act := Run(sys, Init(acts)), Last(acts);
      assert act in acts && forall a | a in Init(acts) :: a in acts;
      FaultlessRunsNeverFail(sys, Init(acts), c);
      if Enabled(sys, w, act) && act.c == c {
        RunKeepsInv(sys, Init(acts));
        assert ClientInv(sys, w, c);
        StepFailsOnlyByFault(sys, w, act);
      }
      hide NextClient, PhaseInv, Budget, SerialHistory, CommitsOnce, Enabled, Faulty;
    }
  }

  /** A finished call takes no more steps. */
  lemma FinishedIsFinal<S, E>(sys: System<S, E>, w: World<S, E>, act: Action<E>)
    requires Enabled(sys, w, act)
    ensures !w.clients[act.c].phase.Finished?
  {
  }

  lemma {:induction false} FinishedIsForever<S, E>(
      sys: System<S, E>, acts: seq<Action<E>>, more: seq<Action<E>>, c: nat)
    requires c < |Run(sys, acts).clients| && Run(sys, acts).clients[c].phase.Finished?
    ensures c < |Run(sys, acts + more).clients|
    ensures Run(sys, acts + more).clients[c] == Run(sys, acts).clients[c]
    decreases |more|
  {
    hide NextClient, Enabled, Send;
    if more == [] {
      assert acts + more == acts;
    } else {
      var now, act := acts + Init(more), Last(more);
      assert acts + more == now + [act];
      FinishedIsForever(sys, acts, Init(more), c);
      RunSnoc(sys, now, act);
      if Enabled(sys, Run(sys, now), act) {
        StepIsOfCall(sys, Run(sys, now), act);
        FinishedIsFinal(sys, Run(sys, now), act);
      }
    }
  }

  /** MAIN RESULT: an error that is no conflict, and a lost acknowledgement, end the call for
      good: it is not retried. */
  lemma ErrorsAreNotRetried<S(!new), E(!new)>(
      sys: System<S, E>, acts: seq<Action<E>>, act: Action<E>, more: seq<Action<E>>)
    requires WellFormed(sys) && Enabled(sys, Run(sys, acts), act) && Faulty(act)
    ensures
      var w := Run(sys, acts + [act] + more);
      act.c < |w.clients| && w.clients[act.c].phase == Finished(Failed)
  {
    RunSnoc(sys, acts, act);
    FaultEndsCall(sys, Run(sys, acts), act);
    FinishedIsForever(sys, acts + [act], more, act.c);
  }

  lemma FaultEndsCall<S, E>(sys: System<S, E>, w: World<S, E>, act: Action<E>)
    requires Enabled(sys, w, act) && Faulty(act)
    ensures
      var w' := Next(sys, w, act);
      act.c < |w'.clients| && w'.clients[act.c].phase == Finished(Failed)
  {
    hide Send, Replay, CountFrom, LastSeq, ApplyMessage;
  }

  /** MAIN RESULT: no call is ever stuck: unless it is finished it has a step to take that is no
      fault, with a conflict of `mutate` counted as a step. */
  lemma NeverStuck<S(!new), E(!new)>(sys: System<S, E>, acts: seq<Action<E>>, c: nat)
    returns (act: Action<E>)
    requires WellFormed(sys) && c < |sys.calls|
    ensures |Run(sys, acts).clients| == |sys.calls|
    ensures !Run(sys, acts).clients[c].phase.Finished? ==>
              act.c == c && !Faulty(act) && Enabled(sys, Run(sys, acts), act)
  {
    RunKeepsInv(sys, acts);
    var w := Run(sys, acts);
    assert ClientInv(sys, w, c);
    act := StepOf(sys, w, c);
  }

  lemma StepOf<S, E>(sys: System<S, E>, w: World<S, E>, c: nat) returns (act: Action<E>)
    requires c < |w.clients| == |sys.calls|
    requires PhaseInv(sys.aggregate, sys.calls[c], c, w.clients[c], w.server)
    ensures !w.clients[c].phase.Finished? ==> act.c == c && !Faulty(act) && Enabled(sys, w, act)
  {
    match w.clients[c].phase
    case Ready => act := ReadSnapshot(c, 0);
    case SnapshotRead(_, _) => act := OpenConsumer(c);
    case Reading(next, _, _) =>
      var q := FirstFrom(w.server.log, sys.calls[c].id, next);
      act := ReadNext(c, q);
    case Loaded(_, _) => act := MutateError(c, true);
    case Saving(_, _, _) => act := if sys.calls[c].every > 0 then ReadSnapshotSeq(c, 0) else Count(c);
    case Counting(_, _, _, _) => act := Count(c);
    case Publishing(_, _, _, _, _, _) => act := Publish(c, false);
    case Finished(_) => act := OpenConsumer(c);
  }

  lemma {:induction false} FirstFrom<S, E>(log: seq<Message<S, E>>, id: Id, from: nat) returns (q: nat)
    requires 0 < from && CountFrom(log, id, from) > 0
    ensures IsNext(log, id, from, q)
    decreases |log| - from
  {
    CountFromZero(log, id, from);
    var k :| 0 <= k < |log| && from <= k + 1 && log[k].id == id;
    if log[from - 1].id == id {
      q := from;
    } else {
      CountFromZero(log, id, from + 1);
      q := FirstFrom(log, id, from + 1);
    }
  }
}

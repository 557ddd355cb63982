/** The event store's own code, `Load`, `Save` and `Execute`, as it runs against a
    stream that other writers append to between any two of its requests.

    `Stream` owns the server state and the future: `others[0]` is what other
    writers append before this store's next request, `faults[0]` is what happens to
    that request on the network, and so on. A postcondition about `Timeline()`
    therefore speaks of every possible interference, and `Timeline()` staying equal
    means this store itself appended nothing. */
module EventStore {
  import opened EventLog

  function Concat<T>(ss: seq<seq<T>>): seq<T> {
    if ss == [] then [] else ss[0] + Concat(ss[1..])
  }

  /** A request goes through, never reaches the server, or is carried out unanswered. */
  datatype Fault = NoFault | RequestLost | ReplyLost

  datatype Reply = Answer(response: Response) | NoAnswer

  class Stream<S, E> {
    var server: Server<S, E>
    var others: seq<seq<Message<S, E>>>
    var faults: seq<Fault>

    constructor (log: seq<Message<S, E>>, others: seq<seq<Message<S, E>>>, faults: seq<Fault>)
      ensures server == Server(log, map[]) && this.others == others && this.faults == faults
    {
      this.server := Server(log, map[]);
      this.others := others;
      this.faults := faults;
    }

    ghost function Timeline(): seq<Message<S, E>>
      reads this
    {
      server.log + Concat(others)
    }

    /** No request to come fails. */
    ghost predicate Faultless()
      reads this
    {
      forall i | 0 <= i < |faults| :: faults[i] == NoFault
    }

    method TakeFault() returns (f: Fault)
      modifies this`faults
      ensures old(Faultless()) ==> f == NoFault && Faultless()
    {
      f := NoFault;
      if faults != [] {
        f, faults := faults[0], faults[1..];
      }
    }

    /** Other writers take their turn. */
    method Interleave()
      modifies this`server, this`others
      ensures Timeline() == old(Timeline())
      ensures old(server.log) <= server.log
      ensures server.staging == old(server.staging)
    {
      if others != [] {
        server := server.(log := server.log + others[0]);
        others := others[1..];
      }
    }

    /** Looking the stream up, which says nothing about its messages. */
    method Find() returns (ok: bool)
      modifies this
      ensures Timeline() == old(Timeline())
      ensures old(server.log) <= server.log && server.staging == old(server.staging)
      ensures old(Faultless()) ==> ok && Faultless()
    {
      Interleave();
      var fault := TakeFault();
      ok := fault == NoFault;
    }

    /** `GetLastMsgForSubject` on the snapshot subject; 0 if there is none. */
    method GetLastSnapshot(id: Id) returns (ok: bool, at: nat)
      modifies this
      ensures Timeline() == old(Timeline())
      ensures old(server.log) <= server.log && server.staging == old(server.staging)
      ensures ok ==> at == LastSnapshot(server.log, id)
      ensures old(Faultless()) ==> ok && Faultless()
    {
      ok := Find();
      at := LastSnapshot(server.log, id);
    }

    /** A filtered consumer from `start`, with its pending count. */
    method OpenConsumer(id: Id, start: nat) returns (ok: bool, pending: nat)
      modifies this
      ensures Timeline() == old(Timeline())
      ensures old(server.log) <= server.log && server.staging == old(server.staging)
      ensures ok ==> pending == CountFrom(server.log, id, start)
      ensures old(Faultless()) ==> ok && Faultless()
    {
      ok := Find();
      pending := CountFrom(server.log, id, start);
    }

    /** The consumer's next message, with the pending count sent along with it. */
    method NextMessage(id: Id, from: nat) returns (ok: bool, q: nat, pending: nat)
      requires 0 < from && CountFrom(server.log, id, from) > 0
      modifies this
      ensures Timeline() == old(Timeline())
      ensures old(server.log) <= server.log && server.staging == old(server.staging)
      ensures ok ==> IsNext(server.log, id, from, q)
      ensures ok ==> pending == CountFrom(server.log, id, q + 1)
      ensures old(Faultless()) ==> ok && Faultless()
    {
      CountFromZero(server.log, id, from);
      ghost var k :| 0 <= k < |server.log| && from <= k + 1 && server.log[k].id == id;
      ok := Find();
      q, pending := from, 0;
      if ok {
        assert server.log[k].id == id;
        while server.log[q - 1].id != id
          invariant from <= q <= k + 1 < |server.log| + 1
          invariant forall j | 0 <= j && from <= j + 1 < q :: server.log[j].id != id
          decreases k - q
        {
          q := q + 1;
        }
        pending := CountFrom(server.log, id, q + 1);
      }
    }

    /** One publish. Without an answer the caller cannot tell whether it `reached` the server. */
    method Publish(id: Id, expected: nat, m: Message<S, E>)
      returns (r: Reply, ghost before: seq<Message<S, E>>, ghost reached: bool)
      modifies this
      ensures old(server.log) <= before && before + Concat(others) == old(Timeline())
      ensures !reached ==> r == NoAnswer && server == Server(before, old(server.staging))
      ensures reached ==>
                var (sv, response) := PublishOne(Server(before, old(server.staging)), id, expected, m);
                server == sv && (r == Answer(response) || r == NoAnswer)
      ensures old(Faultless()) ==> r != NoAnswer && Faultless()
    {
      Interleave();
      before := server.log;
      var fault := TakeFault();
      reached := fault != RequestLost;
      r := NoAnswer;
      if fault != RequestLost {
        var (sv, response) := PublishOne(server, id, expected, m);
        server := sv;
        r := if fault == ReplyLost then NoAnswer else Answer(response);
      }
    }

    method PublishStaged(batch: BatchId, number: nat, id: Id, expected: nat, m: Message<S, E>, commit: bool)
      returns (r: Reply, ghost before: seq<Message<S, E>>, ghost reached: bool)
      modifies this
      ensures old(server.log) <= before && before + Concat(others) == old(Timeline())
      ensures !reached ==> r == NoAnswer && server == Server(before, old(server.staging))
      ensures reached ==>
                var (sv, response) := PublishInBatch(Server(before, old(server.staging)), batch, number, id, expected,
                    m, commit);
                server == sv && (r == Answer(response) || r == NoAnswer)
      ensures old(Faultless()) ==> r != NoAnswer && Faultless()
    {
      Interleave();
      before := server.log;
      var fault := TakeFault();
      reached := fault != RequestLost;
      r := NoAnswer;
      if fault != RequestLost {
        var (sv, response) := PublishInBatch(server, batch, number, id, expected, m, commit);
        server := sv;
        r := if fault == ReplyLost then NoAnswer else Answer(response);
      }
    }
  }

  /** An aggregate object: its fixed identity and the state its methods change. */
  class Instance<S, E> {
    const id: Id
    var state: S

    constructor (a: Aggregate<S, E>, id: Id)
      ensures this.id == id && state == a.initial(id)
    {
      this.id := id;
      state := a.initial(id);
    }

    method Apply(a: Aggregate<S, E>, e: E)
      modifies this
      ensures state == a.apply(old(state), e)
    {
      state := a.apply(state, e);
    }

    method ApplyEvents(a: Aggregate<S, E>, events: seq<E>)
      modifies this
      ensures state == ApplyAll(a, old(state), events)
    {
      for i := 0 to |events|
        invariant state == ApplyAll(a, old(state), events[..i])
      {
        Apply(a, events[i]);
        assert Init(events[..i + 1]) == events[..i];
      }
      assert events[..|events|] == events;
    }
  }

  /** An event handed to `Save`: the aggregate it claims to belong to, whether its
      subject validates, and whether it marshals. */
  datatype Proposed<E> = Proposed(owner: Id, subjectValid: bool, marshals: bool, body: E)

  function Bodies<E>(events: seq<Proposed<E>>): (bodies: seq<E>)
    ensures |bodies| == |events| && forall i | 0 <= i < |events| :: bodies[i] == events[i].body
  {
    seq(|events|, i requires 0 <= i < |events| => events[i].body)
  }

  datatype StoreError =
    | Conflict(expected: nat)
    | NotOfAggregate(index: nat)
    | InvalidSubject(index: nat)
    | DecodeFailed
    | ReadFailed                // a read request failed, or the context ended
    | SnapshotFailed            // TakeSnapshot failed, or returned another event
    | MarshalFailed
    | PublishFailed

  datatype Result<T> = Ok(value: T) | Err(error: StoreError)

  /** What `mutate` returns: events to save, or an error, which may itself be a conflict. */
  datatype Mutation<E> = Produce(events: seq<Proposed<E>>) | Refused(conflict: bool) {
    function Produced(): seq<Proposed<E>> {
      if Produce? then events else []
    }
  }

  datatype ExecuteResult =
    | Wrote | NothingToSave | LoadFailed | MutateFailed(conflict: bool)
    | SaveFailed(error: StoreError) | Exhausted | Cancelled

  /** `MaxAttempts` below 1 counts as 1. */
  function Normalised(maxAttempts: int): nat {
    if maxAttempts < 1 then 1 else maxAttempts
  }

  lemma AgreementOfPrefix<S, E>(a: Aggregate<S, E>, log: seq<Message<S, E>>, rest: seq<Message<S, E>>)
    requires SnapshotsAgree(a, log + rest)
    ensures SnapshotsAgree(a, log)
  {
    forall i | 0 <= i < |log| && log[i].SnapshotMessage? ensures log[i].state == Replay(a, log[..i], log[i].id) {
      assert (log + rest)[i] == log[i] && (log + rest)[..i] == log[..i];
    }
  }

  lemma ReplayOfGrownLog<S, E>(a: Aggregate<S, E>, log: seq<Message<S, E>>, log': seq<Message<S, E>>, id: Id, p: nat)
    requires log <= log' && p <= |log|
    ensures Replay(a, log'[..p], id) == Replay(a, log[..p], id)
  {
    assert log'[..p] == log[..p];
  }

  lemma LastSeqGrows<S, E>(log: seq<Message<S, E>>, log': seq<Message<S, E>>, id: Id)
    requires log <= log'
    ensures LastSeq(log, id) <= LastSeq(log', id)
  {
    var v := LastSeq(log, id);
    if v > 0 {
      assert log'[v - 1] == log[v - 1];
    }
  }

  lemma NonePending<S, E>(log: seq<Message<S, E>>, log': seq<Message<S, E>>, id: Id, next: nat)
    requires log <= log' && CountFrom(log', id, next) == 0 && 0 < next
    ensures LastSeq(log, id) < next
  {
    LastSeqGrows(log, log', id);
    CountFromZero(log', id, next);
  }

  /** A message of the aggregate that cannot be decoded: what makes a load fail. */
  ghost predicate HasUndecodable<S, E>(a: Aggregate<S, E>, log: seq<Message<S, E>>, id: Id) {
    exists i :: 0 <= i < |log| && log[i].EventMessage? && log[i].id == id && a.decode(log[i].event) == Undecodable
  }

  ghost predicate Acceptable<E>(id: Id, e: Proposed<E>) {
    e.owner == id && e.subjectValid
  }

  /** A save on `log` carries a snapshot exactly when one is due there: its events and the
      aggregate's messages after the latest snapshot are `every` or more. */
  ghost predicate SaveCounted<S, E>(log: seq<Message<S, E>>, id: Id, every: nat, added: nat, due: bool) {
    due <==> 0 < every <= CountFrom(log, id, LastSnapshot(log, id) + 1) + added
  }

  lemma NothingNewFor<S, E>(counted: seq<Message<S, E>>, before: seq<Message<S, E>>, id: Id)
    requires counted <= before && LastSeq(before, id) <= |counted|
    ensures forall m | m in before[|counted|..] :: m.id != id
  {
    forall i | |counted| <= i < |before| ensures before[i].id != id {
    }
  }

  /** A lookup and a count taken earlier are still right for a save that commits on a known
      version. */
  lemma CountStillRight<S, E>(
      seen: seq<Message<S, E>>, counted: seq<Message<S, E>>, before: seq<Message<S, E>>, id: Id, expected: nat)
    requires seen <= counted <= before && expected <= |seen|
    requires LastSeq(before, id) == expected
    ensures LastSnapshot(before, id) == LastSnapshot(seen, id)
    ensures CountFrom(before, id, LastSnapshot(seen, id) + 1) == CountFrom(counted, id, LastSnapshot(seen, id) + 1)
  {
    var start := LastSnapshot(seen, id) + 1;
    NothingNewFor(seen, before, id);
    NothingNewFor(counted, before, id);
    assert before == seen + before[|seen|..] && before == counted + before[|counted|..];
    OthersInvisible(seen, before[|seen|..], id, start);
    OthersInvisible(counted, before[|counted|..], id, start);
  }

  class Store<S, E> {
    const aggregate: Aggregate<S, E>
    const every: nat                // SnapshotEvery
    const snapshots: S -> bool      // TakeSnapshot succeeds in a state
    const marshals: S -> bool       // and the snapshot marshals
    const writer: nat               // makes batch ids unique among stores
    const stream: Stream<S, E>
    var saves: nat
    var executions: nat             // calls of Execute so far
    var attempts: nat               // attempts they made

    constructor (
        aggregate: Aggregate<S, E>, every: nat, snapshots: S -> bool, marshals: S -> bool, writer: nat,
            stream: Stream<S, E>)
      ensures this.aggregate == aggregate && this.every == every && this.writer == writer && this.stream == stream
      ensures this.snapshots == snapshots && this.marshals == marshals
      ensures saves == executions == attempts == 0
    {
      this.aggregate, this.every, this.writer, this.stream := aggregate, every, writer, stream;
      this.snapshots, this.marshals := snapshots, marshals;
      saves, executions, attempts := 0, 0, 0;
    }

    /** `applyMessage`: an explicit snapshot replaces the state, an event of a registered
        type is applied, one of an unregistered type is skipped, a corrupt one is an error. */
    method ApplyOne(agg: Instance<S, E>, m: Message<S, E>) returns (ok: bool)
      modifies agg
      ensures ok == !(m.EventMessage? && aggregate.decode(m.event) == Undecodable)
      ensures agg.state == if ok then ApplyMessage(aggregate, old(agg.state), m) else old(agg.state)
    {
      match m
      case SnapshotMessage(_, s) =>
        agg.state := s;
        ok := true;
      case EventMessage(_, e) =>
        match aggregate.decode(e) {
          case UnknownType => ok := true;
          case Undecodable => ok := false;
          case Decodes =>
            agg.Apply(aggregate, e);
            ok := true;
        }
    }

    /** `startSeqAfterSnapshot`: applies the latest snapshot, unless there is none or the
        fast path is off, and returns the sequence to read from (0 for the beginning). */
    method StartSeqAfterSnapshot(agg: Instance<S, E>, skipFastPath: bool) returns (r: Result<nat>)
      requires SnapshotsAgree(aggregate, stream.Timeline())
      requires agg.state == aggregate.initial(agg.id)
      modifies agg, stream
      ensures stream.Timeline() == old(stream.Timeline())
      ensures old(stream.server.log) <= stream.server.log && stream.server.staging == old(stream.server.staging)
      ensures old(stream.Faultless()) ==> stream.Faultless()
      ensures r.Ok? && r.value == 0 ==> agg.state == aggregate.initial(agg.id)
      ensures r.Ok? && r.value > 0 ==> KnowsPrefix(aggregate, agg.id, stream.server.log, r.value - 1, agg.state)
      ensures r.Ok? ==>
                var at := LastSnapshot(stream.server.log, agg.id);
                r.value == if skipFastPath || at == 0 then 0 else at + 1
      ensures r.Err? ==> r.error == ReadFailed && !old(stream.Faultless())
    {
      if skipFastPath {
        return Ok(0);
      }
      var found, at := stream.GetLastSnapshot(agg.id);
      if !found {
        return Err(ReadFailed);
      }
      if at == 0 {
        return Ok(0);
      }
      AgreementOfPrefix(aggregate, stream.server.log, Concat(stream.others));
      SnapshotIsReplay(aggregate, stream.server.log, agg.id, at);
      var ok := ApplyOne(agg, stream.server.log[at - 1]);
      return Ok(at + 1);
    }

    /** One turn of the reading loop of `forEachAggregateMessage`. */
    method ReadOne(agg: Instance<S, E>, next: nat) returns (r: Result<()>, q: nat, pending: nat)
      requires SnapshotsAgree(aggregate, stream.Timeline())
      requires 0 < next <= |stream.server.log| + 1 && CountFrom(stream.server.log, agg.id, next) > 0
      requires agg.state == Replay(aggregate, stream.server.log[..next - 1], agg.id)
      modifies agg, stream
      ensures stream.Timeline() == old(stream.Timeline())
      ensures old(stream.server.log) <= stream.server.log && stream.server.staging == old(stream.server.staging)
      ensures old(stream.Faultless()) ==> stream.Faultless()
      ensures r.Ok? ==> next <= q <= |stream.server.log|
      ensures r.Ok? ==> KnowsPrefix(aggregate, agg.id, stream.server.log, q, agg.state)
      ensures r.Ok? ==> pending == CountFrom(stream.server.log, agg.id, q + 1)
      ensures r.Err? ==> ReadError(r.error, stream.server.log, agg.id)
      ensures r.Err? && r.error == ReadFailed ==> !old(stream.Faultless())
    {
      ghost var before := stream.server.log;
      var ok;
      ok, q, pending := stream.NextMessage(agg.id, next);
      if !ok {
        return Err(ReadFailed), q, pending;
      }
      ReplayOfGrownLog(aggregate, before, stream.server.log, agg.id, next - 1);
      AgreementOfPrefix(aggregate, stream.server.log, Concat(stream.others));
      ReadNextExtendsReplay(aggregate, agg.id, stream.server.log, next, q, agg.state);
      ok := ApplyOne(agg, stream.server.log[q - 1]);
      r := if ok then Ok(()) else Err(DecodeFailed);
    }

    /** Why a read can fail: a request did, or the aggregate has a corrupt event. */
    ghost predicate ReadError(error: StoreError, log: seq<Message<S, E>>, id: Id) {
      error == ReadFailed || (error == DecodeFailed && HasUndecodable(aggregate, log, id))
    }

    /** Where the reading loop stands: `version` is 0 as long as nothing was read. */
    ghost predicate ReadSoFar(
        log: seq<Message<S, E>>, id: Id, start: nat, base: S, version: nat, next: nat, pending: nat, st: S)
    {
      && 0 < next <= |log| + 1
      && pending == CountFrom(log, id, next)
      && st == Replay(aggregate, log[..next - 1], id)
      && (version == 0 ==> next == start && st == base)
      && (version > 0 ==> version == next - 1 && KnowsPrefix(aggregate, id, log, version, st))
    }

    lemma StillNothingRead(log: seq<Message<S, E>>, log': seq<Message<S, E>>, id: Id, start: nat, base: S)
      requires log <= log' && 0 < start <= |log| + 1 && base == Replay(aggregate, log[..start - 1], id)
      ensures ReadSoFar(log', id, start, base, 0, start, CountFrom(log', id, start), base)
    {
      ReplayOfGrownLog(aggregate, log, log', id, start - 1);
    }

    lemma ReadOneMore(log: seq<Message<S, E>>, id: Id, start: nat, base: S, q: nat, st: S)
      requires 0 < q && KnowsPrefix(aggregate, id, log, q, st)
      ensures ReadSoFar(log, id, start, base, q, q + 1, CountFrom(log, id, q + 1), st)
    {
    }

    /** Nothing is pending: everything that was there at the beginning has been read. */
    lemma ReadAll(
        log: seq<Message<S, E>>, log': seq<Message<S, E>>, id: Id, start: nat, base: S, version: nat, next: nat, st: S)
      requires log <= log' && ReadSoFar(log', id, start, base, version, next, 0, st)
      ensures LastSeq(log, id) < (if version == 0 then start else version + 1)
    {
      NonePending(log, log', id, next);
    }

    /** `forEachAggregateMessage` with `applyMessage`: applies every message from `start` on
        until the server reports none pending; 0 when there was none to begin with. */
    method ReadTail(agg: Instance<S, E>, start: nat) returns (r: Result<nat>)
      requires SnapshotsAgree(aggregate, stream.Timeline())
      requires 0 < start <= |stream.server.log| + 1
      requires agg.state == Replay(aggregate, stream.server.log[..start - 1], agg.id)
      modifies agg, stream
      ensures stream.Timeline() == old(stream.Timeline())
      ensures old(stream.server.log) <= stream.server.log && stream.server.staging == old(stream.server.staging)
      ensures old(stream.Faultless()) ==> stream.Faultless()
      ensures r.Ok? && r.value == 0 ==> agg.state == old(agg.state)
      ensures r.Ok? && r.value > 0 ==> KnowsPrefix(aggregate, agg.id, stream.server.log, r.value, agg.state)
      ensures r.Ok? ==> LastSeq(old(stream.server.log), agg.id) < (if r.value == 0 then start else r.value + 1)
      ensures r.Err? ==> ReadError(r.error, stream.server.log, agg.id)
      ensures r.Err? && r.error == ReadFailed ==> !old(stream.Faultless())
    {
      hide CountFrom, Replay, LastSeq, Concat, HasUndecodable, SnapshotsAgree;
      ghost var timeline := stream.Timeline();
      var ok, pending := stream.OpenConsumer(agg.id, start);
      if !ok {
        return Err(ReadFailed);
      }
      StillNothingRead(old(stream.server.log), stream.server.log, agg.id, start, agg.state);
      var version, next := 0, start;
      while pending != 0
        invariant stream.Timeline() == timeline && (old(stream.Faultless()) ==> stream.Faultless())
        invariant old(stream.server.log) <= stream.server.log && stream.server.staging == old(stream.server.staging)
        invariant ReadSoFar(stream.server.log, agg.id, start, old(agg.state), version, next, pending, agg.state)
        decreases |timeline| + 1 - next
      {
        var one, q, left := ReadOne(agg, next);
        if one.Err? {
          return Err(one.error);
        }
        ReadOneMore(stream.server.log, agg.id, start, old(agg.state), q, agg.state);
        version, next, pending := q, q + 1, left;
      }
      ReadAll(old(stream.server.log), stream.server.log, agg.id, start, old(agg.state), version, next, agg.state);
      return Ok(version);
    }

    /** Rebuilds the aggregate. Whatever other writers do meanwhile, the state is the
        full replay up to the returned version, which covers at least everything that
        was in the log when the call began. It fails only for a corrupt event of the
        aggregate or a failing request, and never writes. */
    method Load(agg: Instance<S, E>, skipFastPath: bool) returns (r: Result<nat>)
      requires SnapshotsAgree(aggregate, stream.Timeline())
      requires agg.state == aggregate.initial(agg.id)
      modifies agg, stream
      ensures stream.Timeline() == old(stream.Timeline())
      ensures old(stream.server.log) <= stream.server.log && stream.server.staging == old(stream.server.staging)
      ensures old(stream.Faultless()) ==> stream.Faultless()
      ensures r.Ok? ==> KnowsPrefix(aggregate, agg.id, stream.server.log, r.value, agg.state)
      ensures r.Ok? ==> LastSeq(old(stream.server.log), agg.id) <= r.value
      ensures r.Err? ==> ReadError(r.error, stream.server.log, agg.id)
      ensures r.Err? && r.error == ReadFailed ==> !old(stream.Faultless())
    {
      var found := stream.Find();
      if !found {
        return Err(ReadFailed);
      }
      var startSeq := StartSeqAfterSnapshot(agg, skipFastPath);
      if startSeq.Err? {
        return startSeq;
      }
      assert stream.server.log[..0] == [];
      assert aggregate.initial(agg.id) == Replay(aggregate, [], agg.id);
      hide Replay, CountFrom, LastSeq, Concat, HasUndecodable, SnapshotsAgree;
      ghost var before := stream.server.log;
      r := ReadTail(agg, if startSeq.value == 0 then 1 else startSeq.value);
      if r.Err? {
        return;
      }
      LastSeqGrows(old(stream.server.log), before, agg.id);
      assert stream.server.log[..0] == [];
      if r.value == 0 && startSeq.value > 0 {
        ReplayOfGrownLog(aggregate, before, stream.server.log, agg.id, startSeq.value - 1);
        r := Ok(startSeq.value - 1);
      }
    }

    /** `validateEvents`: the first event of another aggregate, or with a bad subject, is an error. */
    method ValidateEvents(id: Id, events: seq<Proposed<E>>) returns (r: Result<()>)
      ensures r.Ok? <==> forall i | 0 <= i < |events| :: Acceptable(id, events[i])
      ensures r.Err? ==>
        exists i ::
          && 0 <= i < |events| && (forall j | 0 <= j < i :: Acceptable(id, events[j])) && !Acceptable(id, events[i])
          && r.error == if events[i].owner != id then NotOfAggregate(i) else InvalidSubject(i)
    {
      for i := 0 to |events|
        invariant forall j | 0 <= j < i :: Acceptable(id, events[j])
      {
        if events[i].owner != id {
          return Err(NotOfAggregate(i));
        }
        if !events[i].subjectValid {
          return Err(InvalidSubject(i));
        }
      }
      return Ok(());
    }

    /** `snapshotForSave`: counts the aggregate's messages since its latest snapshot and,
        when a snapshot is due, applies the new events to the aggregate object itself. */
    method SnapshotForSave(agg: Instance<S, E>, events: seq<E>)
      returns (r: Result<bool>, ghost seen: seq<Message<S, E>>)
      modifies agg, stream
      ensures stream.Timeline() == old(stream.Timeline())
      ensures old(stream.server.log) <= stream.server.log && stream.server.staging == old(stream.server.staging)
      ensures old(stream.Faultless()) ==> stream.Faultless()
      ensures old(stream.server.log) <= seen <= stream.server.log
      ensures r.Ok? ==>
                (r.value <==>
                   0 < every <= CountFrom(stream.server.log, agg.id, LastSnapshot(seen, agg.id) + 1) + |events|)
      ensures r.Ok? ==> agg.state == if r.value then ApplyAll(aggregate, old(agg.state), events) else old(agg.state)
      ensures r.Ok? && r.value ==> snapshots(agg.state)
      ensures r.Err? && r.error != SnapshotFailed ==> r.error == ReadFailed && !old(stream.Faultless())
      ensures r.Err? && r.error == SnapshotFailed ==>
                every > 0 && !snapshots(ApplyAll(aggregate, old(agg.state), events))
    {
      hide CountFrom, ApplyAll, LastSnapshot, Concat;
      seen := stream.server.log;
      if every == 0 {
        return Ok(false), seen;
      }
      var found := stream.Find();
      if !found {
        return Err(ReadFailed), seen;
      }
      var looked, at := stream.GetLastSnapshot(agg.id);
      seen := stream.server.log;
      if !looked {
        return Err(ReadFailed), seen;
      }
      var open, counted := stream.OpenConsumer(agg.id, at + 1);
      if !open {
        return Err(ReadFailed), seen;
      }
      if counted + |events| < every {
        return Ok(false), seen;
      }
      agg.ApplyEvents(aggregate, events);
      if !snapshots(agg.state) {
        return Err(SnapshotFailed), seen;
      }
      return Ok(true), seen;
    }

    /** `publishBatch`: either every message of the save is appended, contiguous and in
        order, on a log whose last sequence for the aggregate was the expected one, or the
        store appends nothing, also when marshalling or a request fails midway. A conflict
        means nothing landed; only a lost reply leaves the caller in doubt. */
    method PublishBatch(id: Id, expected: nat, ms: seq<Message<S, E>>, marshals: seq<bool>)
      returns (r: Result<()>, ghost before: seq<Message<S, E>>, ghost landed: bool)
      requires |ms| == |marshals| > 0
      modifies this`saves, stream
      ensures old(stream.server.log) <= before
      ensures before + Concat(stream.others) == old(stream.Timeline())
      ensures stream.server.log == if landed then before + ms else before
      ensures landed ==> LastSeq(before, id) == expected && forall i | 0 <= i < |marshals| :: marshals[i]
      ensures r.Ok? ==> landed
      ensures r.Err? ==> landed || r.error == MarshalFailed || r.error == PublishFailed ||
                         (r.error == Conflict(expected) && LastSeq(before, id) != expected)
      ensures r.Err? && landed ==> r.error == PublishFailed
      ensures r.Err? && r.error == PublishFailed ==> !old(stream.Faultless())
      ensures r.Err? && r.error == MarshalFailed ==> false in marshals
      ensures old(stream.Faultless()) ==> stream.Faultless()
    {
      saves := saves + 1;
      var batch := (writer, saves);
      before, landed := stream.server.log, false;
      for i := 0 to |ms|
        invariant old(stream.server.log) <= before == stream.server.log
        invariant stream.Timeline() == old(stream.Timeline()) && (old(stream.Faultless()) ==> stream.Faultless())
        invariant i > 0 ==>
                    batch in stream.server.staging && stream.server.staging[batch] == Staged(id, expected, ms[..i])
        invariant i < |ms| && !landed
        invariant forall j | 0 <= j < i :: marshals[j]
      {
        if !marshals[i] {
          return Err(MarshalFailed), before, landed;
        }
        assert ms[..i] + [ms[i]] == ms[..i + 1];
        assert ms[..|ms|] == ms;
        var reply;
        ghost var reached;
        reply, before, reached := stream.PublishStaged(batch, i + 1, id, expected, ms[i], i == |ms| - 1);
        landed := reached && i == |ms| - 1 && LastSeq(before, id) == expected;
        match reply {
          case NoAnswer => return Err(PublishFailed), before, landed;
          case Answer(StagedOnly) =>
          case Answer(WrongLastSequence) => return Err(Conflict(expected)), before, landed;
          case Answer(Ack) => return Ok(()), before, landed;
          case Answer(Rejected) => return Err(PublishFailed), before, landed;
        }
      }
    }

    method PublishSingle(id: Id, expected: nat, m: Message<S, E>, marshals: bool)
      returns (r: Result<()>, ghost before: seq<Message<S, E>>, ghost landed: bool)
      modifies stream
      ensures old(stream.server.log) <= before
      ensures before + Concat(stream.others) == old(stream.Timeline())
      ensures stream.server.log == if landed then before + [m] else before
      ensures landed ==> LastSeq(before, id) == expected && marshals
      ensures r.Ok? ==> landed
      ensures r.Err? ==> landed || r.error == MarshalFailed || r.error == PublishFailed ||
                         (r.error == Conflict(expected) && LastSeq(before, id) != expected)
      ensures r.Err? && landed ==> r.error == PublishFailed
      ensures r.Err? && r.error == PublishFailed ==> !old(stream.Faultless())
      ensures r.Err? && r.error == MarshalFailed ==> !marshals
      ensures old(stream.Faultless()) ==> stream.Faultless()
    {
      if !marshals {
        return Err(MarshalFailed), stream.server.log, false;
      }
      var reply;
      ghost var reached;
      reply, before, reached := stream.Publish(id, expected, m);
      landed := reached && LastSeq(before, id) == expected;
      r := if reply == NoAnswer then Err(PublishFailed)
           else if reply == Answer(Ack) then Ok(())
           else Err(Conflict(expected));
    }

    /** One message goes out alone, several as a batch. */
    method PublishMessages(id: Id, expected: nat, ms: seq<Message<S, E>>, marshals: seq<bool>)
      returns (r: Result<()>, ghost before: seq<Message<S, E>>, ghost landed: bool)
      requires |ms| == |marshals| > 0
      modifies this`saves, stream
      ensures old(stream.server.log) <= before
      ensures before + Concat(stream.others) == old(stream.Timeline())
      ensures stream.server.log == if landed then before + ms else before
      ensures landed ==> LastSeq(before, id) == expected
      ensures r.Ok? ==> landed
      ensures r.Err? ==> r.error == MarshalFailed || r.error == PublishFailed ||
                         (r.error == Conflict(expected) && LastSeq(before, id) != expected)
      ensures r.Err? && landed ==> r.error == PublishFailed
      ensures r.Err? && r.error == PublishFailed ==> !old(stream.Faultless())
      ensures r.Err? && r.error == MarshalFailed ==> false in marshals
      ensures old(stream.Faultless()) ==> stream.Faultless()
    {
      if |ms| == 1 {
        assert ms == [ms[0]] && marshals[0] in marshals;
        r, before, landed := PublishSingle(id, expected, ms[0], marshals[0]);
      } else {
        r, before, landed := PublishBatch(id, expected, ms, marshals);
      }
    }

    /** The snapshot's state: the events applied to the state they were produced from. */
    ghost function StateAfter(st: S, events: seq<Proposed<E>>): S {
      ApplyAll(aggregate, st, Bodies(events))
    }

    /** Why a save of `events` from state `st` fails, other than by a conflict. */
    ghost predicate SaveExplained(error: StoreError, id: Id, st: S, events: seq<Proposed<E>>, faultless: bool) {
      match error
      case Conflict(_) => true
      case NotOfAggregate(i) => i < |events| && events[i].owner != id
      case InvalidSubject(i) => i < |events| && !events[i].subjectValid
      case DecodeFailed => false
      case ReadFailed => !faultless
      case PublishFailed => !faultless
      case SnapshotFailed => every > 0 && !snapshots(StateAfter(st, events))
      case MarshalFailed =>
        (exists i :: 0 <= i < |events| && !events[i].marshals) || (every > 0 && !marshals(StateAfter(st, events)))
    }

    /** Which messages of a save marshal: its events, and its snapshot of state `st`. */
    function EachMarshals(events: seq<Proposed<E>>, snapshot: bool, st: S): (m: seq<bool>)
      ensures |m| == |events| + (if snapshot then 1 else 0)
      ensures false in m ==> (exists i :: 0 <= i < |events| && !events[i].marshals) || (snapshot && !marshals(st))
    {
      seq(|events|, i requires 0 <= i < |events| => events[i].marshals) + (if snapshot then [marshals(st)] else [])
    }

    /** `Save`: all of the events and the snapshot that is due with them, or nothing.
        `before` is the log the save landed on, or the log it left alone. */
    method Save(agg: Instance<S, E>, expected: nat, events: seq<Proposed<E>>)
      returns (r: Result<()>, ghost before: seq<Message<S, E>>, ghost landed: bool, ghost due: bool)
      modifies agg, this`saves, stream
      ensures old(stream.server.log) <= before
      ensures before + Concat(stream.others) == old(stream.Timeline())
      ensures stream.server.log ==
              if landed then before + Batch(aggregate, agg.id, old(agg.state), Bodies(events), due) else before
      ensures landed ==>
                && events != [] && LastSeq(before, agg.id) == expected
                && (forall i | 0 <= i < |events| :: Acceptable(agg.id, events[i]))
                && (expected <= |old(stream.server.log)| ==> SaveCounted(before, agg.id, every, |events|, due))
      ensures r.Ok? ==> landed || events == []
      ensures r.Err? && r.error.Conflict? ==> !landed && LastSeq(before, agg.id) != expected
      ensures r.Err? && landed ==> r.error == PublishFailed
      ensures r.Err? ==> SaveExplained(r.error, agg.id, old(agg.state), events, old(stream.Faultless()))
      ensures old(stream.Faultless()) ==> stream.Faultless()
    {
      hide Batch, LastSeq, CountFrom, Concat, ApplyAll, Bodies, SnapshotsAgree, EachMarshals;
      before, landed, due := stream.server.log, false, false;
      if events == [] {
        return Ok(()), before, landed, due;
      }
      var valid := ValidateEvents(agg.id, events);
      if valid.Err? {
        return valid, before, landed, due;
      }
      var bodies := Bodies(events);
      var base := agg.state;
      var snapshot;
      ghost var seen;
      snapshot, seen := SnapshotForSave(agg, bodies);
      if snapshot.Err? {
        before := stream.server.log;
        return Err(snapshot.error), before, landed, due;
      }
      due := snapshot.value;
      ghost var counted := stream.server.log;
      var ms := Batch(aggregate, agg.id, base, bodies, snapshot.value);
      var eachMarshals := EachMarshals(events, snapshot.value, agg.state);
      r, before, landed := PublishMessages(agg.id, expected, ms, eachMarshals);
      if landed && expected <= |old(stream.server.log)| {
        CountStillRight(seen, counted, before, agg.id, expected);
      }
    }

    /** `mutate` answered `m` at this attempt, given the replay of some prefix of the log. */
    ghost predicate Answered(
        log: seq<Message<S, E>>, id: Id, mutate: (S, nat, nat) -> Mutation<E>, attempt: nat, m: Mutation<E>)
    {
      exists v: nat :: v <= |log| && mutate(Replay(aggregate, log[..v], id), v, attempt) == m
    }

    /** The save of what `mutate` answered failed for a reason. */
    ghost predicate SaveRefused(
        log: seq<Message<S, E>>, id: Id, mutate: (S, nat, nat) -> Mutation<E>, attempt: nat, error: StoreError,
        faultless: bool)
    {
      exists v: nat ::
        && v <= |log|
        && SaveExplained(error, id, Replay(aggregate, log[..v], id),
                         mutate(Replay(aggregate, log[..v], id), v, attempt).Produced(), faultless)
    }

    /** Why an `Execute` that began at log `since` and ended at log `before` gave this result. */
    ghost predicate Explained(
        r: ExecuteResult, since: seq<Message<S, E>>, before: seq<Message<S, E>>, id: Id,
        mutate: (S, nat, nat) -> Mutation<E>, attempt: nat, faultless: bool)
    {
      match r
      case Wrote => true
      case NothingToSave => Answered(before, id, mutate, attempt, Produce([]))
      case MutateFailed(conflict) => Answered(before, id, mutate, attempt, Refused(conflict))
      case LoadFailed => !faultless || HasUndecodable(aggregate, before, id)
      case SaveFailed(error) => !error.Conflict? && SaveRefused(before, id, mutate, attempt, error, faultless)
      case Exhausted => LastSeq(since, id) < LastSeq(before, id)
      case Cancelled => LastSeq(since, id) < LastSeq(before, id)
    }

    /** Causes stay causes when seen from an earlier moment: the log was shorter, and a network
        that was without faults then still is. */
    lemma ExplainedSince(
        r: ExecuteResult, earlier: seq<Message<S, E>>, since: seq<Message<S, E>>, before: seq<Message<S, E>>, id: Id,
        mutate: (S, nat, nat) -> Mutation<E>, attempt: nat, faultless: bool, wasFaultless: bool)
      requires earlier <= since && (wasFaultless ==> faultless)
      requires Explained(r, since, before, id, mutate, attempt, faultless)
      ensures Explained(r, earlier, before, id, mutate, attempt, wasFaultless)
    {
      LastSeqGrows(earlier, since, id);
      if r.SaveFailed? {
        RefusedBefore(before, id, mutate, attempt, r.error, faultless, wasFaultless);
      }
    }

    /** A conflict on a loaded version means that the aggregate was written to meanwhile. */
    lemma ConflictMeansNewer(
        since: seq<Message<S, E>>, known: seq<Message<S, E>>, before: seq<Message<S, E>>, id: Id, version: nat, st: S)
      requires since <= known <= before && KnowsPrefix(aggregate, id, known, version, st)
      requires LastSeq(since, id) <= version && LastSeq(before, id) != version
      ensures LastSeq(since, id) < LastSeq(before, id)
    {
      if version > 0 {
        assert before[version - 1] == known[version - 1];
      }
    }

    /** What was answered and refused is seen from the log of the save as well. */
    lemma AnsweredThere(
        known: seq<Message<S, E>>, before: seq<Message<S, E>>, id: Id, mutate: (S, nat, nat) -> Mutation<E>,
        attempt: nat, version: nat, st: S, error: StoreError, faultless: bool, wasFaultless: bool)
      requires known <= before && KnowsPrefix(aggregate, id, known, version, st) && (wasFaultless ==> faultless)
      ensures Answered(before, id, mutate, attempt, mutate(st, version, attempt))
      ensures SaveExplained(error, id, st, mutate(st, version, attempt).Produced(), faultless) ==>
                SaveRefused(before, id, mutate, attempt, error, wasFaultless)
    {
      ReplayOfGrownLog(aggregate, known, before, id, version);
      assert mutate(Replay(aggregate, before[..version], id), version, attempt) == mutate(st, version, attempt);
      if SaveExplained(error, id, st, mutate(st, version, attempt).Produced(), faultless) {
        assert SaveExplained(error, id, st, mutate(st, version, attempt).Produced(), wasFaultless);
      }
    }

    /** The save of an attempt, of what `mutate` answered for the loaded state. */
    method SaveAnswer(
        agg: Instance<S, E>, version: nat, events: seq<Proposed<E>>, ghost mutate: (S, nat, nat) -> Mutation<E>,
        ghost attempt: nat)
      returns (r: ExecuteResult, ghost before: seq<Message<S, E>>, ghost landed: bool, ghost due: bool)
      requires KnowsPrefix(aggregate, agg.id, stream.server.log, version, agg.state)
      requires events != [] && events == mutate(agg.state, version, attempt).Produced()
      modifies agg, this`saves, stream
      ensures old(stream.server.log) <= before
      ensures before + Concat(stream.others) == old(stream.Timeline())
      ensures landed ==> Landed(before, stream.server.log, agg.id, mutate, attempt, due)
      ensures !landed ==> stream.server.log == before
      ensures r == Wrote || r.SaveFailed? || r == Exhausted
      ensures r == Wrote ==> landed
      ensures landed ==> r == Wrote || r == SaveFailed(PublishFailed)
      ensures r.SaveFailed? ==>
                !r.error.Conflict? && SaveRefused(before, agg.id, mutate, attempt, r.error, old(stream.Faultless()))
      ensures r == Exhausted ==> LastSeq(before, agg.id) != version
      ensures old(stream.Faultless()) ==> stream.Faultless()
    {
      hide Replay, LastSeq, Concat, Batch, SaveCounted, SaveExplained, Answered, SaveRefused, Landed, Bodies;
      ghost var st, known, faultless := agg.state, stream.server.log, stream.Faultless();
      var result;
      result, before, landed, due := Save(agg, version, events);
      if landed {
        LandedThere(known, before, stream.server.log, agg.id, mutate, attempt, version, st, due);
      }
      if result.Ok? {
        return Wrote, before, landed, due;
      }
      if !result.error.Conflict? {
        AnsweredThere(known, before, agg.id, mutate, attempt, version, st, result.error, faultless, faultless);
        return SaveFailed(result.error), before, landed, due;
      }
      return Exhausted, before, landed, due;
    }

    /** One attempt of `Execute`: load, mutate, save. `Exhausted` stands for a conflict. */
    method Attempt(id: Id, mutate: (S, nat, nat) -> Mutation<E>, attempt: nat)
      returns (r: ExecuteResult, ghost before: seq<Message<S, E>>, ghost landed: bool, ghost due: bool,
               ghost saved: bool)
      requires SnapshotsAgree(aggregate, stream.Timeline())
      modifies this`saves, this`attempts, stream
      ensures attempts == old(attempts) + 1
      ensures old(stream.server.log) <= before
      ensures before + Concat(stream.others) == old(stream.Timeline())
      ensures landed ==> Landed(before, stream.server.log, id, mutate, attempt, due)
      ensures !landed ==> stream.server.log == before
      ensures r == Wrote ==> landed
      ensures landed ==> r == Wrote || r == SaveFailed(PublishFailed)
      ensures r != Cancelled && (r == Exhausted ==> saved)
      ensures Explained(r, old(stream.server.log), before, id, mutate, attempt, old(stream.Faultless()))
      ensures old(stream.Faultless()) ==> stream.Faultless()
    {
      hide Replay, LastSeq, Concat, Batch, SaveCounted, SnapshotsAgree, SaveExplained, HasUndecodable,
        Answered, SaveRefused, Landed, Bodies;
      attempts := attempts + 1;
      landed, due, saved := false, false, false;
      var agg := new Instance<S, E>(aggregate, id);
      var version := Load(agg, false);
      before := stream.server.log;
      if version.Err? {
        return LoadFailed, before, landed, due, saved;
      }
      var mutation := mutate(agg.state, version.value, attempt);
      AnsweredThere(before, before, id, mutate, attempt, version.value, agg.state, ReadFailed, true, true);
      if mutation.Refused? {
        return MutateFailed(mutation.conflict), before, landed, due, saved;
      }
      if mutation.events == [] {
        return NothingToSave, before, landed, due, saved;
      }
      ghost var st, known, faultless := agg.state, stream.server.log, stream.Faultless();
      saved := true;
      r, before, landed, due := SaveAnswer(agg, version.value, mutation.events, mutate, attempt);
      if r == Exhausted {
        ConflictMeansNewer(old(stream.server.log), known, before, id, version.value, st);
      } else if r.SaveFailed? {
        RefusedBefore(before, id, mutate, attempt, r.error, faultless, old(stream.Faultless()));
      }
    }

    lemma RefusedBefore(
        log: seq<Message<S, E>>, id: Id, mutate: (S, nat, nat) -> Mutation<E>, attempt: nat, error: StoreError,
        faultless: bool, wasFaultless: bool)
      requires SaveRefused(log, id, mutate, attempt, error, faultless) && (wasFaultless ==> faultless)
      ensures SaveRefused(log, id, mutate, attempt, error, wasFaultless)
    {
      var v: nat :|
        && v <= |log|
        && SaveExplained(error, id, Replay(aggregate, log[..v], id),
                         mutate(Replay(aggregate, log[..v], id), v, attempt).Produced(), faultless);
      assert SaveExplained(error, id, Replay(aggregate, log[..v], id),
                           mutate(Replay(aggregate, log[..v], id), v, attempt).Produced(), wasFaultless);
    }

    /** What landed on `before` is what `mutate` answers for its full replay, as one save. */
    ghost predicate Landed(
        before: seq<Message<S, E>>, after: seq<Message<S, E>>, id: Id, mutate: (S, nat, nat) -> Mutation<E>,
        attempt: nat, due: bool)
    {
      var st := Replay(aggregate, before, id);
      var events := mutate(st, LastSeq(before, id), attempt).Produced();
      && events != []
      && after == before + Batch(aggregate, id, st, Bodies(events), due)
      && SaveCounted(before, id, every, |events|, due)
    }

    lemma LandedThere(
        known: seq<Message<S, E>>, before: seq<Message<S, E>>, after: seq<Message<S, E>>, id: Id,
        mutate: (S, nat, nat) -> Mutation<E>, attempt: nat, version: nat, st: S, due: bool)
      requires known <= before && KnowsPrefix(aggregate, id, known, version, st) && LastSeq(before, id) == version
      requires
        var events := mutate(st, version, attempt).Produced();
        && events != [] && after == before + Batch(aggregate, id, st, Bodies(events), due)
        && SaveCounted(before, id, every, |events|, due)
      ensures Landed(before, after, id, mutate, attempt, due)
    {
      ReplayOfGrownLog(aggregate, known, before, id, version);
      CurrentVersionIsFullReplay(aggregate, id, before, version, st);
    }

    /** `Execute`: retries on conflict with a new aggregate object each time. It writes at
        most one batch, and that batch is what `mutate` returns for the full replay of the
        log it landed on. It reports success for a batch that landed, or a failed publish if
        the reply was lost; every other way out has its cause and leaves the log to the other
        writers, a context that ends while waiting for the next attempt included. It runs out
        of attempts only if somebody else wrote to the aggregate. */
    method Execute(id: Id, mutate: (S, nat, nat) -> Mutation<E>, maxAttempts: int, cancelled: nat -> bool)
      returns (r: ExecuteResult, ghost before: seq<Message<S, E>>, ghost landed: bool, ghost attempt: nat,
               ghost due: bool, ghost saveCalls: nat)
      requires SnapshotsAgree(aggregate, stream.Timeline())
      modifies this`saves, this`executions, this`attempts, stream
      ensures executions == old(executions) + 1
      ensures old(attempts) < attempts <= old(attempts) + (if maxAttempts < 1 then 1 else maxAttempts)
      ensures old(stream.server.log) <= before
      ensures before + Concat(stream.others) == old(stream.Timeline())
      ensures landed ==>
                attempt == attempts - old(attempts) - 1 && Landed(before, stream.server.log, id, mutate, attempt, due)
      ensures !landed ==> stream.server.log == before
      ensures r == Wrote ==> landed
      ensures landed ==> r == Wrote || r == SaveFailed(PublishFailed)
      ensures Explained(r, old(stream.server.log), before, id, mutate, attempt, old(stream.Faultless()))
      ensures old(stream.Faultless()) ==> stream.Faultless()
      ensures saveCalls <= attempts - old(attempts)
      ensures r == Exhausted ==>
                && saveCalls == attempts - old(attempts) == (if maxAttempts < 1 then 1 else maxAttempts)
                && Concat(old(stream.others)) != []
      ensures forall i | 0 < i < attempts - old(attempts) :: !cancelled(i)
      ensures r == Cancelled ==> cancelled(attempts - old(attempts)) && attempts - old(attempts) < maxAttempts
    {
      hide Concat, SnapshotsAgree, Explained, Landed;
      executions := executions + 1;
      before, landed, due, attempt, saveCalls := stream.server.log, false, false, 0, 0;
      r := Exhausted;
      var limit := Normalised(maxAttempts);
      for i := 0 to limit
        invariant old(stream.server.log) <= before == stream.server.log && r == Exhausted
        invariant stream.Timeline() == old(stream.Timeline()) && (old(stream.Faultless()) ==> stream.Faultless())
        invariant !landed && saveCalls == i == attempts - old(attempts) && executions == old(executions) + 1
        invariant forall j | 0 < j < i :: !cancelled(j)
        invariant i > 0 ==>
                    Explained(Exhausted, old(stream.server.log), before, id, mutate, attempt, old(stream.Faultless()))
      {
        if i > 0 && cancelled(i) {
          CancelledExplained(old(stream.server.log), before, id, mutate, attempt, old(stream.Faultless()));
          return Cancelled, before, landed, attempt, due, saveCalls;
        }
        attempt := i;
        ghost var saved, since, faultless := false, stream.server.log, stream.Faultless();
        r, before, landed, due, saved := Attempt(id, mutate, i);
        saveCalls := if saved then saveCalls + 1 else saveCalls;
        ExplainedSince(
          r, old(stream.server.log), since, before, id, mutate, i, faultless, old(stream.Faultless()));
        if r != Exhausted {
          return;
        }
      }
      assert Concat(old(stream.others)) == [] ==> before == old(stream.server.log);
      ExhaustedMeansNewer(old(stream.server.log), before, id, mutate, attempt, old(stream.Faultless()));
    }

    lemma CancelledExplained(
        since: seq<Message<S, E>>, before: seq<Message<S, E>>, id: Id, mutate: (S, nat, nat) -> Mutation<E>,
        attempt: nat, faultless: bool)
      requires Explained(Exhausted, since, before, id, mutate, attempt, faultless)
      ensures Explained(Cancelled, since, before, id, mutate, attempt, faultless)
    {
    }

    lemma ExhaustedMeansNewer(
        since: seq<Message<S, E>>, before: seq<Message<S, E>>, id: Id, mutate: (S, nat, nat) -> Mutation<E>,
        attempt: nat, faultless: bool)
      requires Explained(Exhausted, since, before, id, mutate, attempt, faultless)
      ensures since != before
    {
    }
  }
}

/** Where the parts of the event store meet: `Load` and `Stream` on the same log, and the
    imperative `Execute` as one step of the interleaving protocol. */
module StoreAgreement {
  import opened EventLog
  import opened EventStore
  import opened EventReader
  import P = ExecuteProtocol

  /** Loads an aggregate and streams its history from a log nobody else writes to, without
      failing requests: the version is the aggregate's last, and the folded stream is the
      loaded state, with the fast path or without it on either side. */
  method LoadAndStream<S, E>(
      a: Aggregate<S, E>, log: seq<Message<S, E>>, id: Id, skipFastPath: bool, opts: ReadOptions)
    returns (r: Result<nat>, st: S, trace: seq<Yield<S, E>>)
    requires SnapshotsAgree(a, log)
    ensures trace == WholeStream(a, log, id, opts)
    ensures r.Err? ==> HasUndecodable(a, log, id)
    ensures r.Ok? ==> r.value == LastSeq(log, id) && st == Replay(a, log, id)
    ensures
      && r.Ok? && AllReadable(a, log, id, StartSeq(log, id, opts))
      && (opts.skipSnapshotFastPath || opts.includeSnapshots || LastSnapshot(log, id) == 0)
      ==> Fold(a, a.initial(id), trace) == st
  {
    var stream := new Stream<S, E>(log, [], []);
    var store := new Store<S, E>(a, 0, _ => true, _ => true, 0, stream);
    var agg := new Instance<S, E>(a, id);
    assert stream.Timeline() == log;
    r := store.Load(agg, skipFastPath);
    assert stream.server.log == log;
    st := agg.state;
    var always: Consumer<S, E> := _ => true;
    trace := StreamTyped(a, log, id, opts, [], always);
    StreamUntilCuts(a, log, id, opts, []);
    if r.Ok? {
      CurrentVersionIsFullReplay(a, id, log, r.value, st);
      if && AllReadable(a, log, id, StartSeq(log, id, opts))
         && (opts.skipSnapshotFastPath || opts.includeSnapshots || LastSnapshot(log, id) == 0) {
        StreamAgreesWithLoad(a, log, id, opts, r.value, st);
      }
    }
  }

  /** What `Execute` guarantees of a batch that landed is what the protocol calls a commit that
      is serial: an `Execute` extends any serial history by one. */
  lemma ExecuteIsSerial<S(!new), E(!new)>(
      store: Store<S, E>, sys: P.System<S, E>, history: seq<P.Commit<E>>, before: seq<Message<S, E>>,
      after: seq<Message<S, E>>, c: nat, mutate: (S, nat, nat) -> Mutation<E>, attempt: nat, due: bool)
    requires c < |sys.calls| && sys.aggregate == store.aggregate && sys.calls[c].every == store.every
    requires forall st, v, n :: sys.calls[c].mutate(st, v, n, Bodies(mutate(st, v, n).Produced()))
    requires P.SerialHistory(sys, history, before)
    requires store.Landed(before, after, sys.calls[c].id, mutate, attempt, due)
    ensures exists k: P.Commit<E> :: k.client == c && k.attempt == attempt && P.SerialHistory(sys, history + [k], after)
  {
    hide P.SerialHistory, Replay, LastSeq, CountFrom, Batch;
    var id := sys.calls[c].id;
    var st, version := Replay(store.aggregate, before, id), LastSeq(before, id);
    var events := Bodies(mutate(st, version, attempt).Produced());
    var last := LastSnapshot(before, id);
    var k := P.Commit(c, |before|, attempt, version, events, last, due);
    var written := Batch(store.aggregate, id, st, events, due);
    assert after == before + written;
    P.SerialAppend(sys, history, before, k, written);
  }
}

/** One JetStream stream seen as an append-only log shared by many aggregates,
    and the queries the event store makes on it.

    A stream holds the messages of one scope and one aggregate type, so an
    aggregate is named by its id alone. The message at index `i` has stream
    sequence `i + 1`; sequence 0 means "no message". A message is either a domain
    event or an explicit snapshot of its aggregate (`Subjects.AggregateFilterExact`
    and `Subjects.SnapshotSuffixIsNameEquality` justify telling them apart by id
    and by name). */
module EventLog {

  type Id = string

  /** What decoding the bytes of an event yields: a value of a type listed in
      `EventTypes`, an unregistered type, or a decoding failure. */
  datatype Decoding = Decodes | UnknownType | Undecodable

  /** An event-sourced aggregate type. `Apply` of a snapshot event restores the
      snapshotted state whatever the receiver held, so it needs no field here. */
  datatype Aggregate<!S, !E> = Aggregate(
    initial: Id -> S,
    apply: (S, E) -> S,
    decode: E -> Decoding
  )

  datatype Message<S, E> =
    | EventMessage(id: Id, event: E)
    | SnapshotMessage(id: Id, state: S)

  function Init<T>(s: seq<T>): seq<T>
    requires s != []
  {
    s[..|s| - 1]
  }

  function Last<T>(s: seq<T>): T
    requires s != []
  {
    s[|s| - 1]
  }

  // ---------------------------------------------------------------- replay

  /** The reference meaning of one message for an aggregate: domain events of
      registered types change the state, nothing else does. */
  function ApplyDomain<S, E>(a: Aggregate<S, E>, id: Id, st: S, m: Message<S, E>): S {
    if m.EventMessage? && m.id == id && a.decode(m.event) == Decodes then a.apply(st, m.event) else st
  }

  /** Full replay: every domain event of the aggregate, oldest first, no snapshot used. */
  function Replay<S, E>(a: Aggregate<S, E>, log: seq<Message<S, E>>, id: Id): S {
    if log == [] then a.initial(id) else ApplyDomain(a, id, Replay(a, Init(log), id), Last(log))
  }

  /** `Apply` for each of `events` in turn, registered or not, as `snapshotForSave` does. */
  function ApplyAll<S, E>(a: Aggregate<S, E>, st: S, events: seq<E>): S {
    if events == [] then st else a.apply(ApplyAll(a, st, Init(events)), Last(events))
  }

  /** Every snapshot in the log is the full replay of what precedes it. */
  ghost predicate SnapshotsAgree<S, E>(a: Aggregate<S, E>, log: seq<Message<S, E>>) {
    forall i | 0 <= i < |log| && log[i].SnapshotMessage? ::
      log[i].state == Replay(a, log[..i], log[i].id)
  }

  lemma {:induction false} ReplaySkipsOthers<S, E>(
      a: Aggregate<S, E>, log: seq<Message<S, E>>, id: Id, p: nat, q: nat)
    requires p <= q <= |log|
    requires forall k | p <= k < q :: log[k].id == id ==> log[k].SnapshotMessage?
    ensures Replay(a, log[..q], id) == Replay(a, log[..p], id)
    decreases q
  {
    if p < q {
      ReplaySkipsOthers(a, log, id, p, q - 1);
      assert Init(log[..q]) == log[..q - 1];
    }
  }

  lemma {:induction false} ReplayAppendEvents<S, E>(
      a: Aggregate<S, E>, log: seq<Message<S, E>>, id: Id, events: seq<E>)
    requires forall e | e in events :: a.decode(e) == Decodes
    ensures Replay(a, log + EventMessages(id, events), id) == ApplyAll(a, Replay(a, log, id), events)
  {
    if events == [] {
      assert log + EventMessages<S, E>(id, events) == log;
    } else {
      var more := log + EventMessages(id, events);
      assert Init(more) == log + EventMessages(id, Init(events));
      assert Last(more) == EventMessage(id, Last(events));
      ReplayAppendEvents(a, log, id, Init(events));
    }
  }

  // --------------------------------------------------------------- queries

  /** The sequence of the aggregate's last message, domain event or snapshot:
      what the expected-last-subject-sequence check compares with. */
  function LastSeq<S, E>(log: seq<Message<S, E>>, id: Id): (v: nat)
    ensures v <= |log|
    ensures v > 0 ==> log[v - 1].id == id
    ensures forall k | v <= k < |log| :: log[k].id != id
  {
    if log == [] then 0 else if Last(log).id == id then |log| else LastSeq(Init(log), id)
  }

  /** The sequence of the aggregate's last snapshot: get-last on the snapshot subject. */
  function LastSnapshot<S, E>(log: seq<Message<S, E>>, id: Id): (v: nat)
    ensures v <= |log|
    ensures v > 0 ==> log[v - 1].id == id && log[v - 1].SnapshotMessage?
    ensures forall k | v <= k < |log| :: log[k].id == id ==> log[k].EventMessage?
  {
    if log == [] then 0
    else if Last(log).id == id && Last(log).SnapshotMessage? then |log|
    else LastSnapshot(Init(log), id)
  }

  /** How many messages of the aggregate have sequence `start` or later: the
      pending count of a filtered consumer opened at `start`. */
  function CountFrom<S, E>(log: seq<Message<S, E>>, id: Id, start: nat): nat {
    if log == [] then 0
    else CountFrom(Init(log), id, start) + (if start <= |log| && Last(log).id == id then 1 else 0)
  }

  /** Sequence `q` is the aggregate's first message at or after `from`. */
  ghost predicate IsNext<S, E>(log: seq<Message<S, E>>, id: Id, from: nat, q: nat) {
    && 0 < q && from <= q <= |log|
    && log[q - 1].id == id
    && forall k | 0 <= k && from <= k + 1 < q :: log[k].id != id
  }

  /** `seq` names no message, or one of the aggregate's snapshots. */
  ghost predicate IsSnapshotOrNone<S, E>(log: seq<Message<S, E>>, id: Id, s: nat) {
    s == 0 || (s <= |log| && log[s - 1].id == id && log[s - 1].SnapshotMessage?)
  }

  function EventMessages<S, E>(id: Id, events: seq<E>): (ms: seq<Message<S, E>>) {
    seq(|events|, i requires 0 <= i < |events| => EventMessage(id, events[i]))
  }

  /** What one save publishes: its events in order, then the snapshot if one is due. */
  function Batch<S, E>(a: Aggregate<S, E>, id: Id, st: S, events: seq<E>, snapshot: bool): (ms: seq<Message<S, E>>)
    ensures |ms| == |events| + (if snapshot then 1 else 0)
    ensures forall m | m in ms :: m.id == id
  {
    EventMessages(id, events) + (if snapshot then [SnapshotMessage(id, ApplyAll(a, st, events))] else [])
  }

  /** A snapshot is due when the messages counted so far plus the new events reach `every`. */
  predicate SnapshotDue(every: nat, counted: nat, added: nat) {
    every > 0 && counted + added >= every
  }

  // ------------------------------------------------ how the queries grow

  lemma {:induction false} CountFromZero<S, E>(log: seq<Message<S, E>>, id: Id, start: nat)
    ensures CountFrom(log, id, start) == 0 <==> forall k | 0 <= k < |log| && start <= k + 1 :: log[k].id != id
  {
    if log != [] {
      CountFromZero(Init(log), id, start);
      assert forall k | 0 <= k < |log| :: log[k] == if k == |log| - 1 then Last(log) else Init(log)[k];
    }
  }

  /** With none pending from `start` on, the aggregate's last message is before it. */
  lemma NonePendingMeansRead<S, E>(log: seq<Message<S, E>>, id: Id, start: nat)
    requires 0 < start && CountFrom(log, id, start) == 0
    ensures LastSeq(log, id) < start
  {
    CountFromZero(log, id, start);
  }

  lemma {:induction false} CountFromLater<S, E>(log: seq<Message<S, E>>, id: Id, s: nat, t: nat)
    requires s <= t
    ensures CountFrom(log, id, t) <= CountFrom(log, id, s)
  {
    if log != [] {
      CountFromLater(Init(log), id, s, t);
    }
  }

  /** Messages of other aggregates change nothing an aggregate's queries see. */
  lemma {:induction false} OthersInvisible<S, E>(log: seq<Message<S, E>>, ms: seq<Message<S, E>>, id: Id, start: nat)
    requires forall m | m in ms :: m.id != id
    ensures LastSeq(log + ms, id) == LastSeq(log, id)
    ensures LastSnapshot(log + ms, id) == LastSnapshot(log, id)
    ensures CountFrom(log + ms, id, start) == CountFrom(log, id, start)
    decreases |ms|
  {
    if ms == [] {
      assert log + ms == log;
    } else {
      assert Init(log + ms) == log + Init(ms);
      assert Last(log + ms) == Last(ms) && Last(ms) in ms;
      OthersInvisible(log, Init(ms), id, start);
    }
  }

  /** A log that grows counts no less. */
  lemma {:induction false} CountFromGrows<S, E>(log: seq<Message<S, E>>, ms: seq<Message<S, E>>, id: Id, start: nat)
    ensures CountFrom(log, id, start) <= CountFrom(log + ms, id, start)
    decreases |ms|
  {
    if ms == [] {
      assert log + ms == log;
    } else {
      assert Init(log + ms) == log + Init(ms);
      CountFromGrows(log, Init(ms), id, start);
    }
  }

  /** Messages of the aggregate itself move its last sequence past the old log. */
  lemma OwnAppendMovesLastSeq<S, E>(log: seq<Message<S, E>>, ms: seq<Message<S, E>>, id: Id)
    requires ms != [] && forall m | m in ms :: m.id == id
    ensures LastSeq(log + ms, id) == |log| + |ms|
  {
    assert Last(log + ms) == Last(ms) && Last(ms) in ms;
  }

  lemma {:induction false} CountFromEvents<S, E>(log: seq<Message<S, E>>, id: Id, events: seq<E>, start: nat)
    requires start <= |log| + 1
    ensures CountFrom(log + EventMessages(id, events), id, start) == CountFrom(log, id, start) + |events|
  {
    if events == [] {
      assert log + EventMessages<S, E>(id, events) == log;
    } else {
      var more := log + EventMessages(id, events);
      assert Init(more) == log + EventMessages(id, Init(events));
      assert Last(more) == EventMessage(id, Last(events));
      CountFromEvents(log, id, Init(events), start);
    }
  }

  lemma {:induction false} LastSnapshotEvents<S, E>(log: seq<Message<S, E>>, id: Id, events: seq<E>)
    ensures LastSnapshot(log + EventMessages(id, events), id) == LastSnapshot(log, id)
  {
    if events == [] {
      assert log + EventMessages<S, E>(id, events) == log;
    } else {
      var more := log + EventMessages(id, events);
      assert Init(more) == log + EventMessages(id, Init(events));
      assert Last(more) == EventMessage(id, Last(events));
      LastSnapshotEvents(log, id, Init(events));
    }
  }

  /** Messages of the aggregate after its latest snapshot. */
  function Tail<S, E>(log: seq<Message<S, E>>, id: Id): nat {
    CountFrom(log, id, LastSnapshot(log, id) + 1)
  }

  lemma SnapshotEmptiesTail<S, E>(log: seq<Message<S, E>>, id: Id)
    requires log != [] && Last(log).id == id && Last(log).SnapshotMessage?
    ensures Tail(log, id) == 0
  {
    assert LastSnapshot(log, id) == |log|;
    CountFromZero(log, id, |log| + 1);
  }

  lemma EventsLengthenTail<S, E>(log: seq<Message<S, E>>, id: Id, events: seq<E>)
    ensures Tail(log + EventMessages(id, events), id) == Tail(log, id) + |events|
  {
    LastSnapshotEvents<S, E>(log, id, events);
    CountFromEvents<S, E>(log, id, events, LastSnapshot(log, id) + 1);
  }

  lemma OthersKeepTail<S, E>(log: seq<Message<S, E>>, ms: seq<Message<S, E>>, id: Id)
    requires forall m | m in ms :: m.id != id
    ensures Tail(log + ms, id) == Tail(log, id)
  {
    OthersInvisible(log, ms, id, LastSnapshot(log, id) + 1);
  }

  /** Counting from an older snapshot, or from none, never undercounts. */
  lemma StaleCountIsNoLess<S, E>(log: seq<Message<S, E>>, id: Id, s: nat)
    requires IsSnapshotOrNone(log, id, s)
    ensures Tail(log, id) <= CountFrom(log, id, s + 1)
  {
    CountFromLater(log, id, s + 1, LastSnapshot(log, id) + 1);
  }

  /** One save's batch keeps every snapshot in agreement with full replay, when its
      events are all of registered types and its base state was the full replay. */
  lemma BatchKeepsAgreement<S, E>(
      a: Aggregate<S, E>, log: seq<Message<S, E>>, id: Id, events: seq<E>, snapshot: bool)
    requires SnapshotsAgree(a, log)
    requires forall e | e in events :: a.decode(e) == Decodes
    ensures SnapshotsAgree(a, log + Batch(a, id, Replay(a, log, id), events, snapshot))
  {
    var grown := log + Batch(a, id, Replay(a, log, id), events, snapshot);
    forall i | 0 <= i < |grown| && grown[i].SnapshotMessage?
      ensures grown[i].state == Replay(a, grown[..i], grown[i].id)
    {
      if i < |log| {
        assert grown[..i] == log[..i];
      } else {
        assert grown[..i] == log + EventMessages(id, events);
        ReplayAppendEvents(a, log, id, events);
      }
    }
  }

  /** The state and start position a read begins with, from any snapshot of the
      aggregate or from none, is the full replay up to that point. */
  lemma SnapshotIsReplay<S, E>(a: Aggregate<S, E>, log: seq<Message<S, E>>, id: Id, s: nat)
    requires SnapshotsAgree(a, log)
    requires 0 < s && IsSnapshotOrNone(log, id, s)
    ensures log[s - 1].state == Replay(a, log[..s], id)
  {
    assert Init(log[..s]) == log[..s - 1];
  }

  // -------------------------------------------------------------- reading

  /** What a read applies for one message: `applyMessage`. */
  function ApplyMessage<S, E>(a: Aggregate<S, E>, st: S, m: Message<S, E>): S {
    match m
    case EventMessage(_, e) => if a.decode(e) == Decodes then a.apply(st, e) else st
    case SnapshotMessage(_, s) => s
  }

  /** What a call knows about the log once it holds a version and a state. */
  ghost predicate KnowsPrefix<S, E>(a: Aggregate<S, E>, id: Id, log: seq<Message<S, E>>, version: nat, st: S) {
    && version <= |log|
    && (version > 0 ==> log[version - 1].id == id)
    && st == Replay(a, log[..version], id)
  }

  lemma KnowsPrefixStable<S, E>(
      a: Aggregate<S, E>, id: Id, log: seq<Message<S, E>>, ms: seq<Message<S, E>>, version: nat, st: S)
    requires KnowsPrefix(a, id, log, version, st)
    ensures KnowsPrefix(a, id, log + ms, version, st)
  {
    assert (log + ms)[..version] == log[..version];
  }

  /** A version that is still the aggregate's last goes with the state of the whole log. */
  lemma CurrentVersionIsFullReplay<S, E>(
      a: Aggregate<S, E>, id: Id, log: seq<Message<S, E>>, version: nat, st: S)
    requires KnowsPrefix(a, id, log, version, st)
    requires LastSeq(log, id) == version
    ensures st == Replay(a, log, id)
  {
    ReplaySkipsOthers(a, log, id, version, |log|);
    assert log[..|log|] == log;
  }

  /** Reading the aggregate's next message extends the known replay by it. */
  lemma ReadNextExtendsReplay<S, E>(
      a: Aggregate<S, E>, id: Id, log: seq<Message<S, E>>, from: nat, q: nat, st: S)
    requires SnapshotsAgree(a, log)
    requires 0 < from <= |log| + 1 && st == Replay(a, log[..from - 1], id)
    requires IsNext(log, id, from, q)
    ensures ApplyMessage(a, st, log[q - 1]) == Replay(a, log[..q], id)
  {
    ReplaySkipsOthers(a, log, id, from - 1, q - 1);
    assert Init(log[..q]) == log[..q - 1];
  }

  // ---------------------------------------------------------------- server

  /** A batch the server has staged but not committed, with the expectation its
      first message carried. */
  datatype Staged<S, E> = Staged(id: Id, expected: nat, messages: seq<Message<S, E>>)

  /** Batch ids are unique per save: the call and its save number. */
  type BatchId = (nat, nat)

  datatype Server<S, E> = Server(log: seq<Message<S, E>>, staging: map<BatchId, Staged<S, E>>)

  datatype Response = StagedOnly | Ack | WrongLastSequence | Rejected

  /** A single publish with an expected last sequence for the aggregate. */
  function PublishOne<S, E>(sv: Server<S, E>, id: Id, expected: nat, m: Message<S, E>): (Server<S, E>, Response) {
    if LastSeq(sv.log, id) == expected then (sv.(log := sv.log + [m]), Ack) else (sv, WrongLastSequence)
  }

  /** Message `number` (from 1) of a batch. Message 1 opens the batch and carries
      the expectation; the committing message checks it and appends everything. */
  function PublishInBatch<S, E>(
      sv: Server<S, E>, batch: BatchId, number: nat, id: Id, expected: nat, m: Message<S, E>, commit: bool)
    : (Server<S, E>, Response)
  {
    if number != 1 && !(batch in sv.staging && |sv.staging[batch].messages| + 1 == number) then
      (sv.(staging := sv.staging - {batch}), Rejected)
    else
      var staged := if number == 1 then Staged(id, expected, [m])
                    else sv.staging[batch].(messages := sv.staging[batch].messages + [m]);
      if !commit then
        (sv.(staging := sv.staging[batch := staged]), StagedOnly)
      else if LastSeq(sv.log, staged.id) == staged.expected then
        (Server(sv.log + staged.messages, sv.staging - {batch}), Ack)
      else
        (sv.(staging := sv.staging - {batch}), WrongLastSequence)
  }
}

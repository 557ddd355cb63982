/** `Stream`: the history of one aggregate as a sequence of records handed to a
    consumer one at a time, on a log that does not change meanwhile. The aggregate
    takes explicit snapshots. */
module EventReader {
  import opened EventLog

  datatype ReadOptions = ReadOptions(skipSnapshotFastPath: bool, includeSnapshots: bool)

  /** One call of `yield`: a record with its version, or the error that ends the stream. */
  datatype Yield<S, E> = Record(message: Message<S, E>, version: nat) | Error

  /** The consumer's answer to the last `yield`, given everything it was handed so far. */
  type Consumer<!S, !E> = seq<Yield<S, E>> -> bool

  /** `storedEventFromMessage`: nothing for a snapshot that is not wanted or an event of an
      unregistered type, an error for one that does not decode, else the record. */
  function StoredEvent<S, E>(a: Aggregate<S, E>, m: Message<S, E>, version: nat, includeSnapshots: bool)
    : seq<Yield<S, E>>
  {
    match m
    case SnapshotMessage(_, _) => if includeSnapshots then [Record(m, version)] else []
    case EventMessage(_, e) =>
      match a.decode(e)
      case Decodes => [Record(m, version)]
      case UnknownType => []
      case Undecodable => [Error]
  }

  /** What the messages from sequence `from` on yield to a consumer that never stops. */
  function Yields<S, E>(a: Aggregate<S, E>, log: seq<Message<S, E>>, id: Id, from: nat, includeSnapshots: bool)
    : seq<Yield<S, E>>
    requires 0 < from
    decreases |log| - from
  {
    if from > |log| then []
    else if log[from - 1].id != id then Yields(a, log, id, from + 1, includeSnapshots)
    else
      var ys := StoredEvent(a, log[from - 1], from, includeSnapshots);
      if ys != [] && ys[0].Error? then ys else ys + Yields(a, log, id, from + 1, includeSnapshots)
  }

  /** Where the tail starts: after the latest snapshot, or at the beginning. */
  function StartSeq<S, E>(log: seq<Message<S, E>>, id: Id, opts: ReadOptions): (s: nat)
    ensures 0 < s <= |log| + 1
  {
    if opts.skipSnapshotFastPath then 1 else LastSnapshot(log, id) + 1
  }

  /** The record of the snapshot the fast path starts from, if it is wanted. */
  function Head<S, E>(log: seq<Message<S, E>>, id: Id, opts: ReadOptions): seq<Yield<S, E>> {
    var s := LastSnapshot(log, id);
    if !opts.skipSnapshotFastPath && opts.includeSnapshots && s > 0 then [Record(log[s - 1], s)] else []
  }

  /** The whole stream. */
  function WholeStream<S, E>(a: Aggregate<S, E>, log: seq<Message<S, E>>, id: Id, opts: ReadOptions)
    : seq<Yield<S, E>>
  {
    Head(log, id, opts) + Yields(a, log, id, StartSeq(log, id, opts), opts.includeSnapshots)
  }

  /** `trace` is what a consumer sees of `whole`: it is never handed anything after it
      said stop, and it misses nothing before that. */
  ghost predicate SeenBy<S, E>(trace: seq<Yield<S, E>>, whole: seq<Yield<S, E>>, consumer: Consumer<S, E>) {
    && trace <= whole
    && (forall k | 0 < k < |trace| :: consumer(trace[..k]))
    && (trace == whole || (trace != [] && !consumer(trace)))
  }

  /** The consumer asked for more after every item of `trace`. */
  ghost predicate WantsMore<S, E>(trace: seq<Yield<S, E>>, consumer: Consumer<S, E>) {
    forall k | 0 < k <= |trace| :: consumer(trace[..k])
  }

  lemma OneMore<S, E>(trace: seq<Yield<S, E>>, y: Yield<S, E>, whole: seq<Yield<S, E>>, consumer: Consumer<S, E>)
    requires WantsMore(trace, consumer) && trace + [y] <= whole
    ensures consumer(trace + [y]) ==> WantsMore(trace + [y], consumer)
    ensures !consumer(trace + [y]) || trace + [y] == whole ==> SeenBy(trace + [y], whole, consumer)
  {
    var more := trace + [y];
    assert forall k | 0 < k <= |trace| :: more[..k] == trace[..k];
    assert more[..|more|] == more;
  }

  lemma AllSeen<S, E>(trace: seq<Yield<S, E>>, consumer: Consumer<S, E>)
    requires WantsMore(trace, consumer)
    ensures SeenBy(trace, trace, consumer)
  {
  }

  /** The answer to the next read request and those to later ones; all is well beyond the end. */
  predicate Answers(answers: seq<bool>) {
    answers == [] || answers[0]
  }

  function Later(answers: seq<bool>): seq<bool> {
    if answers == [] then [] else answers[1..]
  }

  /** What the messages from sequence `from` on yield when each of the aggregate's takes one
      request: the first that fails is the error that ends the stream. */
  function YieldsUntil<S, E>(
      a: Aggregate<S, E>, log: seq<Message<S, E>>, id: Id, from: nat, includeSnapshots: bool, answers: seq<bool>)
    : seq<Yield<S, E>>
    requires 0 < from
    decreases |log| - from
  {
    if from > |log| then []
    else if log[from - 1].id != id then YieldsUntil(a, log, id, from + 1, includeSnapshots, answers)
    else if !Answers(answers) then [Error]
    else
      var ys := StoredEvent(a, log[from - 1], from, includeSnapshots);
      if ys != [] && ys[0].Error? then ys
      else ys + YieldsUntil(a, log, id, from + 1, includeSnapshots, Later(answers))
  }

  /** The answers left once the stream, and on the fast path its snapshot, were looked up. */
  function AfterLookup(opts: ReadOptions, answers: seq<bool>): seq<bool> {
    if opts.skipSnapshotFastPath then Later(answers) else Later(Later(answers))
  }

  predicate LookupFails(opts: ReadOptions, answers: seq<bool>) {
    !Answers(answers) || (!opts.skipSnapshotFastPath && !Answers(Later(answers)))
  }

  /** The stream with these answers: the lookup, the consumer and each message are requests. */
  function StreamUntil<S, E>(
      a: Aggregate<S, E>, log: seq<Message<S, E>>, id: Id, opts: ReadOptions, answers: seq<bool>)
    : seq<Yield<S, E>>
  {
    var left := AfterLookup(opts, answers);
    if LookupFails(opts, answers) then [Error]
    else
      Head(log, id, opts) +
      (if !Answers(left) then [Error]
       else YieldsUntil(a, log, id, StartSeq(log, id, opts), opts.includeSnapshots, Later(left)))
  }

  /** `part` is `whole`, or a part of it from the beginning and then one error. */
  ghost predicate CutShort<S, E>(part: seq<Yield<S, E>>, whole: seq<Yield<S, E>>) {
    part == whole || exists n :: 0 <= n <= |whole| && part == whole[..n] + [Error]
  }

  lemma CutLater<S, E>(head: seq<Yield<S, E>>, part: seq<Yield<S, E>>, whole: seq<Yield<S, E>>)
    requires CutShort(part, whole)
    ensures CutShort(head + part, head + whole)
  {
    if part != whole {
      var n :| 0 <= n <= |whole| && part == whole[..n] + [Error];
      assert head + part == (head + whole)[..|head| + n] + [Error];
    }
  }

  lemma ErrorCuts<S, E>(whole: seq<Yield<S, E>>)
    ensures CutShort([Error], whole)
  {
    assert [Error] == whole[..0] + [Error];
  }

  lemma {:induction false} YieldsUntilCuts<S, E>(
      a: Aggregate<S, E>, log: seq<Message<S, E>>, id: Id, from: nat, includeSnapshots: bool, answers: seq<bool>)
    requires 0 < from
    ensures
      var part := YieldsUntil(a, log, id, from, includeSnapshots, answers);
      var whole := Yields(a, log, id, from, includeSnapshots);
      CutShort(part, whole) && (false !in answers ==> part == whole)
    decreases |log| - from
  {
    var whole := Yields(a, log, id, from, includeSnapshots);
    if from <= |log| && log[from - 1].id == id && !Answers(answers) {
      ErrorCuts(whole);
    } else if from <= |log| && log[from - 1].id == id {
      YieldsUntilCuts(a, log, id, from + 1, includeSnapshots, Later(answers));
      var ys := StoredEvent(a, log[from - 1], from, includeSnapshots);
      CutLater(ys, YieldsUntil(a, log, id, from + 1, includeSnapshots, Later(answers)),
               Yields(a, log, id, from + 1, includeSnapshots));
    } else if from <= |log| {
      YieldsUntilCuts(a, log, id, from + 1, includeSnapshots, answers);
    }
  }

  /** Failing reads only ever cut the stream short, and without one it is whole. */
  lemma StreamUntilCuts<S, E>(
      a: Aggregate<S, E>, log: seq<Message<S, E>>, id: Id, opts: ReadOptions, answers: seq<bool>)
    ensures
      var part, whole := StreamUntil(a, log, id, opts, answers), WholeStream(a, log, id, opts);
      CutShort(part, whole) && (false !in answers ==> part == whole)
  {
    var left, start, head := AfterLookup(opts, answers), StartSeq(log, id, opts), Head(log, id, opts);
    var tail := Yields(a, log, id, start, opts.includeSnapshots);
    ErrorCuts(WholeStream(a, log, id, opts));
    ErrorCuts(tail);
    YieldsUntilCuts(a, log, id, start, opts.includeSnapshots, Later(left));
    hide Yields, YieldsUntil, Head, StartSeq, CutShort;
    CutLater(head, [Error], tail);
    CutLater(head, YieldsUntil(a, log, id, start, opts.includeSnapshots, Later(left)), tail);
  }

  lemma YieldsEnd<S, E>(
      a: Aggregate<S, E>, log: seq<Message<S, E>>, id: Id, next: nat, includeSnapshots: bool, answers: seq<bool>)
    requires next > |log|
    ensures YieldsUntil(a, log, id, next, includeSnapshots, answers) == []
  {
  }

  /** What one more message adds to the stream. */
  lemma YieldsStep<S, E>(
      a: Aggregate<S, E>, log: seq<Message<S, E>>, id: Id, next: nat, includeSnapshots: bool, answers: seq<bool>,
      trace: seq<Yield<S, E>>)
    requires 0 < next <= |log|
    ensures
      var whole := trace + YieldsUntil(a, log, id, next, includeSnapshots, answers);
      var ys := StoredEvent(a, log[next - 1], next, includeSnapshots);
      if log[next - 1].id != id then
        whole == trace + YieldsUntil(a, log, id, next + 1, includeSnapshots, answers)
      else if !Answers(answers) then whole == trace + [Error]
      else
        var rest := YieldsUntil(a, log, id, next + 1, includeSnapshots, Later(answers));
        if ys == [] then whole == trace + rest
        else
          && trace + [ys[0]] <= whole
          && (if ys[0].Error? then trace + [ys[0]] == whole else whole == trace + [ys[0]] + rest)
  {
    var ys := StoredEvent(a, log[next - 1], next, includeSnapshots);
    if ys != [] {
      assert ys == [ys[0]];
    }
  }

  /** The snapshot record, if there is one, is the first item of the stream. */
  lemma SnapshotComesFirst<S, E>(head: seq<Yield<S, E>>, rest: seq<Yield<S, E>>, consumer: Consumer<S, E>)
    requires |head| == 1
    ensures consumer(head) ==> WantsMore(head, consumer)
    ensures !consumer(head) ==> SeenBy(head, head + rest, consumer)
  {
    assert head == [] + [head[0]];
    OneMore([], head[0], head + rest, consumer);
  }

  /** One error at the end of what was wanted so far. */
  lemma ErrorIsLast<S, E>(trace: seq<Yield<S, E>>, consumer: Consumer<S, E>)
    requires WantsMore(trace, consumer)
    ensures SeenBy(trace + [Error], trace + [Error], consumer)
  {
    OneMore(trace, Error, trace + [Error], consumer);
  }

  /** `streamTyped`. The consumer is handed the stream, up to the first read that fails, until
      it stops. */
  method StreamTyped<S, E>(
      a: Aggregate<S, E>, log: seq<Message<S, E>>, id: Id, opts: ReadOptions, answers: seq<bool>,
      consumer: Consumer<S, E>)
    returns (trace: seq<Yield<S, E>>)
    ensures SeenBy(trace, StreamUntil(a, log, id, opts, answers), consumer)
  {
    ghost var whole := StreamUntil(a, log, id, opts, answers);
    trace := [];
    assert WantsMore(trace, consumer);
    hide SeenBy, WantsMore, YieldsUntil, StoredEvent;
    if LookupFails(opts, answers) {
      ErrorIsLast(trace, consumer);
      assert trace + [Error] == [Error];
      return [Error];
    }
    var left := AfterLookup(opts, answers);
    var next, head := StartSeq(log, id, opts), Head(log, id, opts);
    if head != [] {
      SnapshotComesFirst(head, whole[1..], consumer);
      assert head + whole[1..] == whole;
      trace := head;
      if !consumer(trace) {
        return;
      }
    }
    if !Answers(left) {
      ErrorIsLast(trace, consumer);
      return trace + [Error];
    }
    left := Later(left);
    while next <= |log|
      invariant 0 < next <= |log| + 1
      invariant whole == trace + YieldsUntil(a, log, id, next, opts.includeSnapshots, left)
      invariant WantsMore(trace, consumer)
    {
      var m := log[next - 1];
      YieldsStep(a, log, id, next, opts.includeSnapshots, left, trace);
      if m.id == id {
        if !Answers(left) {
          ErrorIsLast(trace, consumer);
          return trace + [Error];
        }
        left := Later(left);
        var ys := StoredEvent(a, m, next, opts.includeSnapshots);
        if ys != [] {
          OneMore(trace, ys[0], whole, consumer);
          trace := trace + [ys[0]];
          if ys[0].Error? || !consumer(trace) {
            return;
          }
        }
      }
      next := next + 1;
    }
    YieldsEnd(a, log, id, next, opts.includeSnapshots, left);
    AllSeen(trace, consumer);
  }

  // -------------------------------------------------- versions and errors

  predicate VersionsFrom<S, E>(ys: seq<Yield<S, E>>, from: nat) {
    && (forall i | 0 <= i < |ys| && ys[i].Record? :: from <= ys[i].version)
    && (forall i, j | 0 <= i < j < |ys| && ys[i].Record? && ys[j].Record? :: ys[i].version < ys[j].version)
    && (forall i | 0 <= i < |ys| && ys[i].Error? :: i == |ys| - 1)
  }

  lemma {:induction false} YieldsVersions<S, E>(
      a: Aggregate<S, E>, log: seq<Message<S, E>>, id: Id, from: nat, includeSnapshots: bool)
    requires 0 < from
    ensures VersionsFrom(Yields(a, log, id, from, includeSnapshots), from)
    decreases |log| - from
  {
    if from <= |log| {
      YieldsVersions(a, log, id, from + 1, includeSnapshots);
    }
  }

  /** Versions strictly increase along the stream and an error can only be its last item. */
  lemma StreamIsOrdered<S, E>(a: Aggregate<S, E>, log: seq<Message<S, E>>, id: Id, opts: ReadOptions)
    ensures VersionsFrom(WholeStream(a, log, id, opts), 0)
  {
    YieldsVersions(a, log, id, StartSeq(log, id, opts), opts.includeSnapshots);
  }

  // ------------------------------------------------- what is in the stream

  lemma {:induction false} CountFromStep<S, E>(log: seq<Message<S, E>>, id: Id, from: nat)
    requires 0 < from <= |log|
    ensures CountFrom(log, id, from) == CountFrom(log, id, from + 1) + (if log[from - 1].id == id then 1 else 0)
  {
    if from < |log| {
      CountFromStep(Init(log), id, from);
    } else {
      CountFromZero(Init(log), id, from);
      CountFromZero(Init(log), id, from + 1);
    }
  }

  /** The request for the message at sequence `q` is the first to fail. */
  lemma {:induction false} YieldsUntilFails<S, E>(
      a: Aggregate<S, E>, log: seq<Message<S, E>>, id: Id, from: nat, includeSnapshots: bool, answers: seq<bool>,
      q: nat)
    requires 0 < from <= q <= |log| && log[q - 1].id == id
    requires forall p | from <= p < q :: !CorruptAt(a, log, id, p)
    requires
      var n := CountFrom(log[..q - 1], id, from);
      n < |answers| && !answers[n] && forall i | 0 <= i < n :: answers[i]
    ensures YieldsUntil(a, log, id, from, includeSnapshots, answers) ==
            Yields(a, log[..q - 1], id, from, includeSnapshots) + [Error]
    decreases q - from
  {
    if from == q {
      CountFromZero(log[..q - 1], id, from);
    } else {
      CountFromStep(log[..q - 1], id, from);
      assert !CorruptAt(a, log, id, from);
      YieldsUntilFails(
        a, log, id, from + 1, includeSnapshots, if log[from - 1].id == id then Later(answers) else answers, q);
    }
  }

  /** MAIN RESULT: the first request that fails ends the stream there. The requests are the
      lookup of the stream, that of its latest snapshot on the fast path, the consumer, and
      one for each message of the aggregate. */
  lemma FailureEndsStream<S, E>(
      a: Aggregate<S, E>, log: seq<Message<S, E>>, id: Id, opts: ReadOptions, answers: seq<bool>, f: nat, q: nat)
    requires f < |answers| && !answers[f] && forall i | 0 <= i < f :: answers[i]
    ensures
      var stream, head := StreamUntil(a, log, id, opts, answers), Head(log, id, opts);
      var lookups, start := if opts.skipSnapshotFastPath then 1 else 2, StartSeq(log, id, opts);
      && (f < lookups ==> stream == [Error])
      && (f == lookups ==> stream == head + [Error])
      && (f > lookups && start <= q <= |log| && log[q - 1].id == id
          && CountFrom(log[..q - 1], id, start) == f - lookups - 1 ==>
            || (exists p :: start <= p < q && CorruptAt(a, log, id, p))
            || stream == head + Yields(a, log[..q - 1], id, start, opts.includeSnapshots) + [Error])
  {
    hide Yields, YieldsUntil, CorruptAt, CountFrom, Head, StartSeq;
    var lookups, start := if opts.skipSnapshotFastPath then 1 else 2, StartSeq(log, id, opts);
    var left, head := AfterLookup(opts, answers), Head(log, id, opts);
    assert f >= lookups ==> left == answers[lookups..];
    if && f > lookups && start <= q <= |log| && log[q - 1].id == id
       && CountFrom(log[..q - 1], id, start) == f - lookups - 1
       && forall p | start <= p < q :: !CorruptAt(a, log, id, p) {
      var rest := Later(left);
      assert forall i | 0 <= i < |rest| :: rest[i] == answers[lookups + 1 + i];
      assert !rest[f - lookups - 1];
      YieldsUntilFails(a, log, id, start, opts.includeSnapshots, rest, q);
      var ys := Yields(a, log[..q - 1], id, start, opts.includeSnapshots);
      assert head + (ys + [Error]) == head + ys + [Error];
    }
  }

  /** The aggregate's event at sequence `q` does not decode. */
  ghost predicate CorruptAt<S, E>(a: Aggregate<S, E>, log: seq<Message<S, E>>, id: Id, q: nat) {
    && 0 < q <= |log| && log[q - 1].id == id
    && log[q - 1].EventMessage? && a.decode(log[q - 1].event) == Undecodable
  }

  /** The message at sequence `q` is one a reader with these options gets: the aggregate's, a
      snapshot only if snapshots are wanted, an event only if its type is registered. */
  ghost predicate WantedAt<S, E>(
      a: Aggregate<S, E>, log: seq<Message<S, E>>, id: Id, includeSnapshots: bool, q: nat)
  {
    && 0 < q <= |log| && log[q - 1].id == id
    && (if log[q - 1].SnapshotMessage? then includeSnapshots else a.decode(log[q - 1].event) == Decodes)
  }

  ghost predicate Records<S, E>(
      a: Aggregate<S, E>, log: seq<Message<S, E>>, id: Id, includeSnapshots: bool, from: nat, y: Yield<S, E>)
  {
    y.Record? ==>
      from <= y.version && WantedAt(a, log, id, includeSnapshots, y.version) && y.message == log[y.version - 1]
  }

  lemma {:induction false} YieldsAreWanted<S, E>(
      a: Aggregate<S, E>, log: seq<Message<S, E>>, id: Id, from: nat, includeSnapshots: bool, y: Yield<S, E>)
    requires 0 < from && y in Yields(a, log, id, from, includeSnapshots)
    ensures Records(a, log, id, includeSnapshots, from, y)
    ensures y.Error? ==> exists q :: from <= q && CorruptAt(a, log, id, q)
    decreases |log| - from
  {
    var ys := StoredEvent(a, log[from - 1], from, includeSnapshots);
    if log[from - 1].id == id && y in ys {
      assert y.Error? ==> CorruptAt(a, log, id, from);
    } else {
      YieldsAreWanted(a, log, id, from + 1, includeSnapshots, y);
    }
  }

  lemma {:induction false} WantedIsYielded<S, E>(
      a: Aggregate<S, E>, log: seq<Message<S, E>>, id: Id, from: nat, includeSnapshots: bool, q: nat)
    requires 0 < from <= q <= |log| && WantedAt(a, log, id, includeSnapshots, q)
    requires forall p | from <= p < q :: !CorruptAt(a, log, id, p)
    ensures Record(log[q - 1], q) in Yields(a, log, id, from, includeSnapshots)
    decreases q - from
  {
    if from < q {
      assert !CorruptAt(a, log, id, from);
      WantedIsYielded(a, log, id, from + 1, includeSnapshots, q);
    }
  }

  lemma {:induction false} CorruptIsReported<S, E>(
      a: Aggregate<S, E>, log: seq<Message<S, E>>, id: Id, from: nat, includeSnapshots: bool, q: nat)
    requires 0 < from <= q && CorruptAt(a, log, id, q)
    ensures Error in Yields(a, log, id, from, includeSnapshots)
    decreases q - from
  {
    if from < q {
      CorruptIsReported(a, log, id, from + 1, includeSnapshots, q);
    }
  }

  /** Where a reader begins: at the beginning, at the latest snapshot if it wants it, or right
      after it. */
  function FirstRead<S, E>(log: seq<Message<S, E>>, id: Id, opts: ReadOptions): nat {
    var at := LastSnapshot(log, id);
    if opts.skipSnapshotFastPath then 1 else if opts.includeSnapshots && at > 0 then at else at + 1
  }

  lemma StreamHoldsOnly<S, E>(a: Aggregate<S, E>, log: seq<Message<S, E>>, id: Id, opts: ReadOptions, y: Yield<S, E>)
    requires y in WholeStream(a, log, id, opts)
    ensures Records(a, log, id, opts.includeSnapshots, FirstRead(log, id, opts), y)
    ensures y.Error? ==> exists p :: FirstRead(log, id, opts) <= p && CorruptAt(a, log, id, p)
  {
    var from := StartSeq(log, id, opts);
    if y in Yields(a, log, id, from, opts.includeSnapshots) {
      YieldsAreWanted(a, log, id, from, opts.includeSnapshots, y);
    }
    hide Yields, CorruptAt;
  }

  lemma StreamHoldsAll<S, E>(a: Aggregate<S, E>, log: seq<Message<S, E>>, id: Id, opts: ReadOptions, q: nat)
    requires FirstRead(log, id, opts) <= q && WantedAt(a, log, id, opts.includeSnapshots, q)
    requires forall p | FirstRead(log, id, opts) <= p < q :: !CorruptAt(a, log, id, p)
    ensures Record(log[q - 1], q) in WholeStream(a, log, id, opts)
  {
    var from := StartSeq(log, id, opts);
    if from <= q {
      WantedIsYielded(a, log, id, from, opts.includeSnapshots, q);
    }
    hide Yields, CorruptAt;
  }

  lemma StreamReportsCorrupt<S, E>(a: Aggregate<S, E>, log: seq<Message<S, E>>, id: Id, opts: ReadOptions, p: nat)
    requires FirstRead(log, id, opts) <= p && CorruptAt(a, log, id, p)
    ensures Error in WholeStream(a, log, id, opts)
  {
    CorruptIsReported(a, log, id, StartSeq(log, id, opts), opts.includeSnapshots, p);
    hide Yields;
  }

  /** MAIN RESULT: the stream holds the aggregate's own messages only, each with its sequence;
      snapshots only if they are wanted, events only of registered types; all of them from the
      latest snapshot on, or from the beginning, up to the first one that does not decode; and
      an error exactly if there is such a one. With `StreamIsOrdered` this is the whole stream. */
  lemma StreamHolds<S, E>(a: Aggregate<S, E>, log: seq<Message<S, E>>, id: Id, opts: ReadOptions, q: nat)
    ensures
      var whole, at := WholeStream(a, log, id, opts), LastSnapshot(log, id);
      var start := if opts.skipSnapshotFastPath then 1 else if opts.includeSnapshots && at > 0 then at else at + 1;
      && (forall y | y in whole :: Records(a, log, id, opts.includeSnapshots, start, y))
      && (start <= q && WantedAt(a, log, id, opts.includeSnapshots, q) ==>
            Record(log[q - 1], q) in whole || exists p :: start <= p < q && CorruptAt(a, log, id, p))
      && (Error in whole <==> exists p :: start <= p && CorruptAt(a, log, id, p))
  {
    var whole, start := WholeStream(a, log, id, opts), FirstRead(log, id, opts);
    hide WholeStream, CorruptAt, Records;
    forall y | y in whole
      ensures Records(a, log, id, opts.includeSnapshots, start, y)
      ensures y.Error? ==> exists p :: start <= p && CorruptAt(a, log, id, p)
    {
      StreamHoldsOnly(a, log, id, opts, y);
    }
    if && start <= q && WantedAt(a, log, id, opts.includeSnapshots, q)
       && forall p | start <= p < q :: !CorruptAt(a, log, id, p) {
      StreamHoldsAll(a, log, id, opts, q);
    }
    if p :| start <= p && CorruptAt(a, log, id, p) {
      StreamReportsCorrupt(a, log, id, opts, p);
    }
  }

  // ----------------------------------------------------------- state

  /** Folding `Apply` over the records. */
  function Fold<S, E>(a: Aggregate<S, E>, st: S, ys: seq<Yield<S, E>>): S {
    if ys == [] then st
    else if Last(ys).Error? then Fold(a, st, Init(ys))
    else ApplyMessage(a, Fold(a, st, Init(ys)), Last(ys).message)
  }

  lemma {:induction false} FoldConcat<S, E>(a: Aggregate<S, E>, st: S, xs: seq<Yield<S, E>>, ys: seq<Yield<S, E>>)
    ensures Fold(a, st, xs + ys) == Fold(a, Fold(a, st, xs), ys)
    decreases |ys|
  {
    if ys == [] {
      assert xs + ys == xs;
    } else {
      assert Init(xs + ys) == xs + Init(ys);
      FoldConcat(a, st, xs, Init(ys));
    }
  }

  ghost predicate AllReadable<S, E>(a: Aggregate<S, E>, log: seq<Message<S, E>>, id: Id, from: nat) {
    forall i | 0 <= i < |log| && from <= i + 1 && log[i].id == id && log[i].EventMessage? ::
      a.decode(log[i].event) != Undecodable
  }

  lemma {:induction false} FoldYields<S, E>(
      a: Aggregate<S, E>, log: seq<Message<S, E>>, id: Id, from: nat, includeSnapshots: bool)
    requires SnapshotsAgree(a, log) && AllReadable(a, log, id, from)
    requires 0 < from <= |log| + 1
    ensures Fold(a, Replay(a, log[..from - 1], id), Yields(a, log, id, from, includeSnapshots)) == Replay(a, log, id)
    decreases |log| + 1 - from
  {
    var st := Replay(a, log[..from - 1], id);
    if from == |log| + 1 {
      assert log[..from - 1] == log;
    } else {
      var m := log[from - 1];
      assert Init(log[..from]) == log[..from - 1];
      FoldYields(a, log, id, from + 1, includeSnapshots);
      if m.id == id {
        var ys := StoredEvent(a, m, from, includeSnapshots);
        FoldConcat(a, st, ys, Yields(a, log, id, from + 1, includeSnapshots));
        assert Fold(a, st, ys) == Replay(a, log[..from], id);
      }
    }
  }

  /** MAIN RESULT: folding `Apply` over a stream from a fresh aggregate gives the full
      replay, which is also what a load of this log returns, in every mode but one: the
      fast path without its snapshot record leaves out what the snapshot stood for. */
  lemma FoldedStreamIsReplay<S, E>(a: Aggregate<S, E>, log: seq<Message<S, E>>, id: Id, opts: ReadOptions)
    requires SnapshotsAgree(a, log) && AllReadable(a, log, id, StartSeq(log, id, opts))
    requires opts.skipSnapshotFastPath || opts.includeSnapshots || LastSnapshot(log, id) == 0
    ensures Fold(a, a.initial(id), WholeStream(a, log, id, opts)) == Replay(a, log, id)
  {
    var start, head := StartSeq(log, id, opts), Head(log, id, opts);
    var tail := Yields(a, log, id, start, opts.includeSnapshots);
    FoldedHead(a, log, id, opts);
    FoldYields(a, log, id, start, opts.includeSnapshots);
    FoldConcat(a, a.initial(id), head, tail);
    hide Fold, Replay, Head, StartSeq, Yields, SnapshotsAgree, AllReadable;
  }

  /** Where the tail starts, the fold is the replay so far. */
  lemma FoldedHead<S, E>(a: Aggregate<S, E>, log: seq<Message<S, E>>, id: Id, opts: ReadOptions)
    requires SnapshotsAgree(a, log)
    requires opts.skipSnapshotFastPath || opts.includeSnapshots || LastSnapshot(log, id) == 0
    ensures Fold(a, a.initial(id), Head(log, id, opts)) == Replay(a, log[..StartSeq(log, id, opts) - 1], id)
  {
    var head := Head(log, id, opts);
    if head == [] {
      assert log[..0] == [];
    } else {
      SnapshotIsReplay(a, log, id, LastSnapshot(log, id));
      assert Init(head) == [];
    }
  }

  /** In the remaining mode the stream continues from the snapshotted state. */
  lemma TailStreamContinuesSnapshot<S, E>(a: Aggregate<S, E>, log: seq<Message<S, E>>, id: Id)
    requires SnapshotsAgree(a, log)
    requires AllReadable(a, log, id, LastSnapshot(log, id) + 1)
    ensures
      var whole := WholeStream(a, log, id, ReadOptions(false, false));
      Fold(a, Replay(a, log[..LastSnapshot(log, id)], id), whole) == Replay(a, log, id)
  {
    var start := LastSnapshot(log, id) + 1;
    FoldYields(a, log, id, start, false);
    var opts := ReadOptions(false, false);
    assert WholeStream(a, log, id, opts) == Yields(a, log, id, start, false);
  }

  /** MAIN RESULT: a load and a folded stream of the same still log agree. The
      premises are what `EventStore.Store.Load` guarantees when nobody else writes. */
  lemma StreamAgreesWithLoad<S, E>(
      a: Aggregate<S, E>, log: seq<Message<S, E>>, id: Id, opts: ReadOptions, version: nat, st: S)
    requires SnapshotsAgree(a, log) && AllReadable(a, log, id, StartSeq(log, id, opts))
    requires opts.skipSnapshotFastPath || opts.includeSnapshots || LastSnapshot(log, id) == 0
    requires KnowsPrefix(a, id, log, version, st) && LastSeq(log, id) <= version
    ensures version == LastSeq(log, id)
    ensures Fold(a, a.initial(id), WholeStream(a, log, id, opts)) == st
  {
    FoldedStreamIsReplay(a, log, id, opts);
    CurrentVersionIsFullReplay(a, id, log, version, st);
  }

  /** An event and a snapshot taken right after it. */
  function SnapshottedEvent<S, E>(a: Aggregate<S, E>, id: Id, e: E): seq<Message<S, E>> {
    [EventMessage(id, e), SnapshotMessage(id, a.apply(a.initial(id), e))]
  }

  /** The fast path without snapshot records forgets what the snapshot stands for. */
  lemma TailAloneForgets<S, E>(a: Aggregate<S, E>, id: Id, e: E)
    requires a.decode(e) == Decodes
    ensures
      var log, opts := SnapshottedEvent(a, id, e), ReadOptions(false, false);
      && SnapshotsAgree(a, log) && AllReadable(a, log, id, StartSeq(log, id, opts))
      && Fold(a, a.initial(id), WholeStream(a, log, id, opts)) == a.initial(id)
      && Replay(a, log, id) == a.apply(a.initial(id), e)
  {
    var log := SnapshottedEvent(a, id, e);
    assert log[..1] == [EventMessage(id, e)] && Init(log[..1]) == [];
    assert Init(log) == log[..1];
    assert LastSnapshot(log, id) == 2;
    assert WholeStream(a, log, id, ReadOptions(false, false)) == [];
  }

  /** MAIN RESULT: for an aggregate with any event that changes its initial state, folding
      the stream is the replay on all logs exactly when the fast path is off or snapshot
      records are included; the default options are neither. */
  lemma FoldIsReplayIff<S(!new), E(!new)>(a: Aggregate<S, E>, id: Id, opts: ReadOptions, e: E)
    requires a.decode(e) == Decodes && a.apply(a.initial(id), e) != a.initial(id)
    ensures
      (forall log | SnapshotsAgree(a, log) && AllReadable(a, log, id, StartSeq(log, id, opts)) ::
         Fold(a, a.initial(id), WholeStream(a, log, id, opts)) == Replay(a, log, id))
      <==> opts.skipSnapshotFastPath || opts.includeSnapshots
  {
    hide SnapshotsAgree, AllReadable, StartSeq, Fold, WholeStream, Replay;
    if opts.skipSnapshotFastPath || opts.includeSnapshots {
      forall log | SnapshotsAgree(a, log) && AllReadable(a, log, id, StartSeq(log, id, opts))
        ensures Fold(a, a.initial(id), WholeStream(a, log, id, opts)) == Replay(a, log, id)
      {
        FoldedStreamIsReplay(a, log, id, opts);
      }
    } else {
      TailAloneForgets(a, id, e);
      assert opts == ReadOptions(false, false);
    }
  }
}

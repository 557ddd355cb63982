/** Why the snapshot results ask for explicit snapshots, registered event types and a
    `mutate` that leaves the aggregate alone: what the code does without each. */
module SnapshotLimits {
  import opened Wrappers
  import opened EventLog

  // ------------------------------------------------------ implicit snapshots

  datatype Json = Scalar(text: string) | Array(items: seq<Json>) | Object(members: map<string, Json>)

  /** The exported fields of an aggregate struct, under their JSON names, and their values. */
  type Fields<V> = map<string, V>

  /** How the values of the fields are encoded, and decoded by the type of the field that
      receives them; matching of names ignores letter case (`foldCase`). */
  datatype Encoding<!V> = Encoding(encode: V -> Json, decode: (string, Json) -> Option<V>, foldCase: string -> string)

  function Marshal<V>(enc: Encoding<V>, st: Fields<V>): Json {
    Object(map f | f in st :: enc.encode(st[f]))
  }

  const WRAPPED := "AggregateRef"

  /** The stored value is a wrapper struct whose embedded interface is not flattened:
      the aggregate ends up one level down, under the interface's name. */
  function MarshalImplicitSnapshot<V>(enc: Encoding<V>, st: Fields<V>): Json {
    Object(map[WRAPPED := Marshal(enc, st)])
  }

  datatype Decoded<V> = Restored(fields: Fields<V>) | DecodeError

  /** Member `k` is decoded into field `f`. */
  predicate Feeds<V>(enc: Encoding<V>, k: string, f: string) {
    enc.foldCase(k) == enc.foldCase(f)
  }

  ghost predicate Fed<V>(enc: Encoding<V>, members: map<string, Json>, f: string) {
    exists k :: k in members && Feeds(enc, k, f)
  }

  /** The member a field is decoded from. */
  ghost function Feeder<V>(enc: Encoding<V>, members: map<string, Json>, f: string): (k: string)
    requires Fed(enc, members, f)
    ensures k in members && Feeds(enc, k, f)
  {
    var k :| k in members && Feeds(enc, k, f);
    k
  }

  /** What a field holds after decoding: unmatched fields keep their value. */
  ghost function FieldAfter<V>(enc: Encoding<V>, receiver: Fields<V>, members: map<string, Json>, f: string): Option<V>
    requires f in receiver
  {
    if Fed(enc, members, f) then enc.decode(f, members[Feeder(enc, members, f)]) else Some(receiver[f])
  }

  /** Decoding an object into a struct: unmatched members are ignored, a value that does not
      fit its field is an error. */
  ghost function UnmarshalInto<V>(enc: Encoding<V>, receiver: Fields<V>, j: Json): Decoded<V> {
    if !j.Object? || exists f :: f in receiver && FieldAfter(enc, receiver, j.members, f).None? then DecodeError
    else Restored(map f | f in receiver :: FieldAfter(enc, receiver, j.members, f).value)
  }

  /** The wrapper has one member only. */
  lemma OnlyWrapperFeeds<V>(enc: Encoding<V>, receiver: Fields<V>, st: Fields<V>, f: string)
    requires f in receiver
    ensures FieldAfter(enc, receiver, MarshalImplicitSnapshot(enc, st).members, f) ==
            if Feeds(enc, WRAPPED, f) then enc.decode(f, Marshal(enc, st)) else Some(receiver[f])
  {
    var members := MarshalImplicitSnapshot(enc, st).members;
    assert WRAPPED in members && forall k | k in members :: k == WRAPPED;
  }

  /** An implicit snapshot leaves every field as it was, unless its name is the wrapper's:
      without such a field nothing of the snapshotted state ever comes back. */
  lemma ImplicitSnapshotRestoresNothing<V>(enc: Encoding<V>, receiver: Fields<V>, st: Fields<V>)
    ensures
      var d := UnmarshalInto(enc, receiver, MarshalImplicitSnapshot(enc, st));
      && (d.Restored? ==>
            d.fields.Keys == receiver.Keys && forall f | f in receiver && !Feeds(enc, WRAPPED, f) ::
                d.fields[f] == receiver[f])
      && ((forall f | f in receiver :: !Feeds(enc, WRAPPED, f)) ==> d == Restored(receiver))
  {
    var d := UnmarshalInto(enc, receiver, MarshalImplicitSnapshot(enc, st));
    forall f | f in receiver
      ensures FieldAfter(enc, receiver, MarshalImplicitSnapshot(enc, st).members, f) ==
              if Feeds(enc, WRAPPED, f) then enc.decode(f, Marshal(enc, st)) else Some(receiver[f])
    {
      OnlyWrapperFeeds(enc, receiver, st, f);
    }
    if forall f | f in receiver :: !Feeds(enc, WRAPPED, f) {
      assert d.fields == receiver;
    }
  }

  /** Encoding the aggregate itself, as documented, would restore it. */
  lemma PlainEncodingRestores<V>(enc: Encoding<V>, receiver: Fields<V>, st: Fields<V>)
    requires receiver.Keys == st.Keys
    requires forall f, g | f in st && g in st && Feeds(enc, f, g) :: f == g
    requires forall f | f in st :: enc.decode(f, enc.encode(st[f])) == Some(st[f])
    ensures UnmarshalInto(enc, receiver, Marshal(enc, st)) == Restored(st)
  {
    var members := Marshal(enc, st).members;
    forall f | f in receiver ensures FieldAfter(enc, receiver, members, f) == Some(st[f]) {
      assert f in members && Feeds(enc, f, f) && Fed(enc, members, f);
      assert Feeder(enc, members, f) == f;
    }
    assert UnmarshalInto(enc, receiver, Marshal(enc, st)).fields == st;
  }

  /** So decoding an implicit snapshot into a new aggregate restores the state exactly when
      every field already had its value, fields with the wrapper's name aside. */
  lemma ImplicitSnapshotRestoresIff<V>(enc: Encoding<V>, initial: Fields<V>, st: Fields<V>)
    ensures
      UnmarshalInto(enc, initial, MarshalImplicitSnapshot(enc, st)) == Restored(st) <==>
      && st.Keys == initial.Keys
      && (forall f | f in initial && !Feeds(enc, WRAPPED, f) :: st[f] == initial[f])
      && (forall f | f in initial && Feeds(enc, WRAPPED, f) :: enc.decode(f, Marshal(enc, st)) == Some(st[f]))
  {
    var d, j := UnmarshalInto(enc, initial, MarshalImplicitSnapshot(enc, st)), MarshalImplicitSnapshot(enc, st);
    forall f | f in initial
      ensures FieldAfter(enc, initial, j.members, f) ==
              if Feeds(enc, WRAPPED, f) then enc.decode(f, Marshal(enc, st)) else Some(initial[f])
    {
      OnlyWrapperFeeds(enc, initial, st, f);
    }
    if d == Restored(st) {
      forall f | f in initial ensures FieldAfter(enc, initial, j.members, f) == Some(st[f]) {
        assert d.fields[f] == st[f];
      }
    }
    if st.Keys == initial.Keys && forall f | f in initial :: FieldAfter(enc, initial, j.members, f) == Some(st[f]) {
      assert d.fields == st;
    }
  }

  // ------------------------------------------------ the other two assumptions

  /** A batch with a snapshot agrees with replay exactly when the snapshotted state is what
      replaying its events gives. */
  lemma BatchAgreesIff<S, E>(a: Aggregate<S, E>, log: seq<Message<S, E>>, id: Id, base: S, events: seq<E>)
    requires SnapshotsAgree(a, log)
    ensures SnapshotsAgree(a, log + Batch(a, id, base, events, true)) <==>
            ApplyAll(a, base, events) == Replay(a, log + EventMessages(id, events), id)
  {
    var n, grown := |log| + |events|, log + Batch(a, id, base, events, true);
    assert grown[..n] == log + EventMessages(id, events);
    assert grown[n] == SnapshotMessage(id, ApplyAll(a, base, events));
    forall i | 0 <= i < n && grown[i].SnapshotMessage? ensures grown[i].state == Replay(a, grown[..i], grown[i].id) {
      assert i < |log| && grown[..i] == log[..i];
    }
  }

  /** An event that matters can be saved together with a snapshot on all logs exactly when its
      type is registered: replay skips one that is not, while the snapshot counts it. */
  lemma RegisteredIff<S(!new), E(!new)>(a: Aggregate<S, E>, id: Id, e: E)
    requires a.apply(a.initial(id), e) != a.initial(id)
    ensures
      (forall log | SnapshotsAgree(a, log) :: SnapshotsAgree(a, log + Batch(a, id, Replay(a, log, id), [e], true)))
      <==> a.decode(e) == Decodes
  {
    if a.decode(e) == Decodes {
      forall log | SnapshotsAgree(a, log)
        ensures SnapshotsAgree(a, log + Batch(a, id, Replay(a, log, id), [e], true))
      {
        BatchKeepsAgreement(a, log, id, [e], true);
      }
    } else {
      UnregisteredEventBreaksAgreement(a, id, e);
    }
  }

  lemma UnregisteredEventBreaksAgreement<S, E>(a: Aggregate<S, E>, id: Id, e: E)
    requires a.decode(e) != Decodes && a.apply(a.initial(id), e) != a.initial(id)
    ensures SnapshotsAgree(a, []) && !SnapshotsAgree(a, [] + Batch(a, id, Replay(a, [], id), [e], true))
  {
    BatchAgreesIff(a, [], id, Replay(a, [], id), [e]);
    var log := [] + EventMessages<S, E>(id, [e]);
    assert Init(log) == [] && Last(log) == EventMessage(id, e);
    assert Init([e]) == [] && Last([e]) == e;
  }

  /** A save from an aggregate whose state is `base`, whatever `mutate` did to it, agrees exactly
      when the events lead from there to where they lead from the replayed state. */
  lemma SavedStateIff<S, E>(a: Aggregate<S, E>, log: seq<Message<S, E>>, id: Id, base: S, events: seq<E>)
    requires SnapshotsAgree(a, log) && forall e | e in events :: a.decode(e) == Decodes
    ensures SnapshotsAgree(a, log + Batch(a, id, base, events, true)) <==>
            ApplyAll(a, base, events) == ApplyAll(a, Replay(a, log, id), events)
  {
    BatchAgreesIff(a, log, id, base, events);
    ReplayAppendEvents(a, log, id, events);
  }

  /** If `mutate` itself applies the events it returns, the snapshot applies them twice, which
      is right exactly when applying them twice is applying them once. */
  lemma MutatingAggregateAgreesIff<S, E>(a: Aggregate<S, E>, log: seq<Message<S, E>>, id: Id, events: seq<E>)
    requires SnapshotsAgree(a, log) && forall e | e in events :: a.decode(e) == Decodes
    ensures
      var once := ApplyAll(a, Replay(a, log, id), events);
      SnapshotsAgree(a, log + Batch(a, id, once, events, true)) <==> ApplyAll(a, once, events) == once
  {
    SavedStateIff(a, log, id, ApplyAll(a, Replay(a, log, id), events), events);
  }

  /** A counter is an aggregate for which it is wrong. */
  lemma MutatingCounterBreaksAgreement()
    ensures
      var a := Aggregate((_: Id) => 0, (st: int, e: int) => st + e, (_: int) => Decodes);
      !SnapshotsAgree(a, [] + Batch(a, "a", ApplyAll(a, Replay(a, [], "a"), [1]), [1], true))
  {
    var a := Aggregate((_: Id) => 0, (st: int, e: int) => st + e, (_: int) => Decodes);
    MutatingAggregateAgreesIff(a, [], "a", [1]);
    assert Init([1]) == [] && Last([1]) == 1;
    assert ApplyAll(a, 0, [1]) == 1 && ApplyAll(a, 1, [1]) == 2;
  }
}

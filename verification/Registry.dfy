/** The type registry typed handlers fill and decoding looks up. Go types are abstract
    values; a factory is determined by its type. */
module Registry {
  import opened Subjects
  import opened NatsFilters
  import opened BusDispatch

  datatype TypeKey = TypeKey(scope: string, kind: string, agg: string, name: string)

  type GoType = nat

  datatype RegisterResult = Registered | InvalidKey | TypeMismatch

  /** `validateTypeKey` for events: an empty name is allowed. */
  predicate ValidKey(key: TypeKey) {
    && ValidToken(key.scope) && ValidToken(key.kind) && ValidToken(key.agg)
    && (key.name == "" || ValidToken(key.name))
  }

  /** A key is valid exactly when it makes valid subjects: with any valid id, and with a valid
      name in place of a missing one. */
  lemma ValidKeyMakesSubjects(key: TypeKey, id: string, name: string)
    requires ValidToken(id) && ValidToken(name) && (key.name == "" || key.name == name)
    ensures ValidKey(key) <==> Subject(key.scope, key.kind, key.agg, id, name).Valid()
  {
    var s := Subject(key.scope, key.kind, key.agg, id, name);
    assert s.Tokens() == [key.scope, key.kind, key.agg, id, name];
    if s.Valid() {
      assert ValidToken(s.Tokens()[0]) && ValidToken(s.Tokens()[1]) && ValidToken(s.Tokens()[2]);
    }
  }

  datatype Request = Request(key: TypeKey, typ: GoType)

  function ResultOf(events: map<TypeKey, GoType>, q: Request): RegisterResult {
    if !ValidKey(q.key) then InvalidKey
    else if q.key in events && events[q.key] != q.typ then TypeMismatch
    else Registered
  }

  function AfterRequest(events: map<TypeKey, GoType>, q: Request): map<TypeKey, GoType> {
    if ResultOf(events, q).Registered? then events[q.key := q.typ] else events
  }

  /** The registry after a sequence of registrations, refused ones included. */
  function RegisterAll(qs: seq<Request>): map<TypeKey, GoType> {
    if qs == [] then map[] else AfterRequest(RegisterAll(qs[..|qs| - 1]), qs[|qs| - 1])
  }

  class TypeRegistry {
    var events: map<TypeKey, GoType>
    ghost var requests: seq<Request>

    ghost predicate Valid()
      reads this
    {
      events == RegisterAll(requests)
    }

    constructor ()
      ensures Valid() && requests == []
    {
      events, requests := map[], [];
    }

    /** `registerEvent`. */
    method RegisterEvent(key: TypeKey, typ: GoType) returns (r: RegisterResult)
      requires Valid()
      modifies this
      ensures Valid() && requests == old(requests) + [Request(key, typ)]
      ensures r == ResultOf(old(events), Request(key, typ))
      ensures events == AfterRequest(old(events), Request(key, typ))
    {
      requests := requests + [Request(key, typ)];
      assert requests[..|requests| - 1] == old(requests);
      if !ValidKey(key) {
        return InvalidKey;
      }
      if key in events {
        if events[key] != typ {
          return TypeMismatch;
        }
        assert events[key := typ] == events;
        return Registered;
      }
      events := events[key := typ];
      r := Registered;
    }

    /** `NewEvent`: the exact name first, then the nameless prototype. */
    method NewEvent(kind: string, scope: string, agg: string, name: string) returns (found: bool, typ: GoType)
      ensures (found, typ) == Resolve(events, Subject(scope, kind, agg, "", name))
    {
      var key := TypeKey(scope, kind, agg, name);
      if key in events {
        return true, events[key];
      }
      var nameless := TypeKey(scope, kind, agg, "");
      if nameless in events {
        return true, events[nameless];
      }
      return false, 0;
    }
  }

  function Resolve(events: map<TypeKey, GoType>, s: Subject): (bool, GoType) {
    var exact, nameless := TypeKey(s.scope, s.kind, s.aggregateType, s.name),
        TypeKey(s.scope, s.kind, s.aggregateType, "");
    if exact in events then (true, events[exact])
    else if nameless in events then (true, events[nameless])
    else (false, 0)
  }

  datatype Lookup = NotBound | Bound(typ: GoType)

  function Get(events: map<TypeKey, GoType>, key: TypeKey): Lookup {
    if key in events then Bound(events[key]) else NotBound
  }

  /** The type of the first valid registration of a key, by scanning from the front. */
  function FirstType(qs: seq<Request>, key: TypeKey): Lookup {
    if qs == [] then NotBound
    else if qs[0].key == key && ValidKey(key) then Bound(qs[0].typ)
    else FirstType(qs[1..], key)
  }

  lemma {:induction false} FirstTypeSnoc(qs: seq<Request>, q: Request, key: TypeKey)
    ensures FirstType(qs + [q], key) ==
            if FirstType(qs, key).Bound? then FirstType(qs, key)
            else if q.key == key && ValidKey(key) then Bound(q.typ) else NotBound
  {
    if qs == [] {
      assert (qs + [q])[1..] == [];
    } else {
      FirstTypeSnoc(qs[1..], q, key);
      assert (qs + [q])[1..] == qs[1..] + [q];
    }
  }

  /** MAIN RESULT: whatever is registered, and whatever is refused, a key is bound to the
      type of its first valid registration, and to nothing before that. */
  lemma {:induction false} FirstTypeWins(qs: seq<Request>, key: TypeKey)
    ensures Get(RegisterAll(qs), key) == FirstType(qs, key)
  {
    if qs != [] {
      var init, q := qs[..|qs| - 1], qs[|qs| - 1];
      FirstTypeWins(init, key);
      FirstTypeSnoc(init, q, key);
      assert init + [q] == qs;
    }
  }

  /** Later registrations never rebind a key. */
  lemma {:induction false} BindingsAreForever(qs: seq<Request>, more: seq<Request>, key: TypeKey)
    requires key in RegisterAll(qs)
    ensures key in RegisterAll(qs + more) && RegisterAll(qs + more)[key] == RegisterAll(qs)[key]
    decreases |more|
  {
    if more == [] {
      assert qs + more == qs;
    } else {
      BindingsAreForever(qs, more[..|more| - 1], key);
      assert (qs + more)[..|qs + more| - 1] == qs + more[..|more| - 1];
    }
  }

  /** The key under which a handler registers its event type. */
  function KeyOf(r: Registration): TypeKey {
    TypeKey(r.scope, r.kind, r.agg, r.name)
  }

  /** Registration `i` of the sequence was accepted when its turn came. */
  ghost predicate Accepted(qs: seq<Request>, i: nat) {
    i < |qs| && ResultOf(RegisterAll(qs[..i]), qs[i]).Registered?
  }

  /** MAIN RESULT: a registration is accepted exactly when its key is valid and no valid
      registration before it was of another type first: the same type again is welcome. */
  lemma AcceptedIff(qs: seq<Request>, i: nat)
    requires i < |qs|
    ensures
      var first := FirstType(qs[..i], qs[i].key);
      Accepted(qs, i) <==> ValidKey(qs[i].key) && (first == NotBound || first == Bound(qs[i].typ))
    ensures ResultOf(RegisterAll(qs[..i]), qs[i]) == InvalidKey <==> !ValidKey(qs[i].key)
  {
    FirstTypeWins(qs[..i], qs[i].key);
  }

  /** MAIN RESULT: an event resolves to the first valid registration under its own name, or else
      to the first under no name, or else to nothing. */
  lemma ResolveIsFirst(qs: seq<Request>, s: Subject)
    ensures
      var own := FirstType(qs, TypeKey(s.scope, s.kind, s.aggregateType, s.name));
      var nameless := FirstType(qs, TypeKey(s.scope, s.kind, s.aggregateType, ""));
      var (found, typ) := Resolve(RegisterAll(qs), s);
      if own.Bound? then found && typ == own.typ
      else if nameless.Bound? then found && typ == nameless.typ
      else !found
  {
    FirstTypeWins(qs, TypeKey(s.scope, s.kind, s.aggregateType, s.name));
    FirstTypeWins(qs, TypeKey(s.scope, s.kind, s.aggregateType, ""));
  }

  /** An accepted registration is still in force at the end. */
  lemma AcceptedStays(qs: seq<Request>, i: nat)
    requires Accepted(qs, i)
    ensures Get(RegisterAll(qs), qs[i].key) == Bound(qs[i].typ)
  {
    var upTo := qs[..i + 1];
    assert upTo[..i] == qs[..i] && upTo + qs[i + 1..] == qs;
    BindingsAreForever(upTo, qs[i + 1..], qs[i].key);
  }

  /** MAIN RESULT: if a handler's type was accepted at any point of the registrations, then in
      the end every event the handler wants resolves to a registered type, and that type is the
      one its callback asserts exactly unless the handler is nameless and the first valid
      registration under the event's own name was of another type. */
  lemma WantedEventsResolve(qs: seq<Request>, i: nat, r: Registration, s: Subject)
    requires Accepted(qs, i) && qs[i].key == KeyOf(r) && Wants(r, s)
    ensures Resolve(RegisterAll(qs), s).0
    ensures
      var own := FirstType(qs, TypeKey(s.scope, s.kind, s.aggregateType, s.name));
      Resolve(RegisterAll(qs), s).1 == qs[i].typ <==> !(r.name == "" && own.Bound? && own.typ != qs[i].typ)
  {
    AcceptedStays(qs, i);
    FirstTypeWins(qs, TypeKey(s.scope, s.kind, s.aggregateType, s.name));
  }

  /** The type of a group's handler was accepted at some point. */
  ghost predicate HandlerRegistered(qs: seq<Request>, g: EventGroup, k: nat)
    requires k in g.handlers
  {
    exists i: nat :: Accepted(qs, i) && qs[i].key == TypeKey(g.scope, g.handlers[k].kind, g.agg, g.handlers[k].name)
  }

  /** MAIN RESULT: every event that gets past a group's patterns and re-check, wanted by
      one handler or another, resolves to a registered type: decoding never meets an
      unknown type there, whatever else was registered before and after. */
  lemma AdmittedEventsResolve(
      qs: seq<Request>, g: EventGroup, queued: bool, c: Config, patterns: seq<string>, s: Subject)
    requires Subscribes(g, queued, c, patterns) && Subscribable(c) && s.Valid()
    requires g.handlers.Keys != {}
    requires forall k | k in g.handlers :: g.handlers[k].kind != "" && HandlerRegistered(qs, g, k)
    requires Handled(c, patterns, s)
    ensures Resolve(RegisterAll(qs), s).0
  {
    hide Subscribes, Subscribable, Handled, RegisterAll;
    var k := HandledHasHandler(g, queued, c, patterns, s);
    assert HandlerRegistered(qs, g, k);
    var i: nat :| Accepted(qs, i) && qs[i].key == TypeKey(g.scope, g.handlers[k].kind, g.agg, g.handlers[k].name);
    AcceptedStays(qs, i);
  }

  /** Such a pair of registrations is accepted: the named type shadows the nameless one. */
  lemma NamedTypeShadowsNameless(scope: string, kind: string, agg: string, name: string)
    requires ValidToken(scope) && ValidToken(kind) && ValidToken(agg) && ValidToken(name)
    ensures
      var qs := [Request(TypeKey(scope, kind, agg, ""), 1), Request(TypeKey(scope, kind, agg, name), 2)];
      var r := Registration(false, scope, agg, kind, "", []);
      var s := Subject(scope, kind, agg, "any", name);
      Wants(r, s) && Get(RegisterAll(qs), KeyOf(r)) == Bound(1) && Resolve(RegisterAll(qs), s) == (true, 2)
  {
    var q1, q2 := Request(TypeKey(scope, kind, agg, ""), 1), Request(TypeKey(scope, kind, agg, name), 2);
    var qs := [q1, q2];
    assert qs[..1] == [q1] && [q1][..0] == [];
    assert RegisterAll([q1]) == map[q1.key := 1];
    assert RegisterAll(qs) == map[q1.key := 1][q2.key := 2];
  }
}

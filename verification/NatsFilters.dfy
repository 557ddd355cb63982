/** The NATS adapter's half of the filter compiler: subscription configs become subject
    patterns, compacted, for queues perhaps collapsed to one wider pattern, and every
    delivered message is checked again on the client. The testkit matcher is the
    reference they must agree with. */
module NatsFilters {
  import opened Subjects
  import opened Compaction
  import opened Filters

  datatype SubscriptionFilter = SubscriptionFilter(kind: string, ids: seq<string>, names: seq<string>)

  datatype Config = Config(
    scope: string, kind: string, types: seq<string>, ids: seq<string>, names: seq<string>,
    filters: seq<SubscriptionFilter>)

  predicate ValidTokens(ts: seq<string>) {
    forall i | 0 <= i < |ts| :: ValidToken(ts[i])
  }

  predicate ValidFilter(f: SubscriptionFilter) {
    (f.kind == "" || ValidToken(f.kind)) && ValidTokens(f.ids) && ValidTokens(f.names)
  }

  /** `EventSubscriptionConfig.Validate` returns no error. */
  predicate ConfigValid(c: Config) {
    && (c.types != [] ==> c.scope != "")
    && (c.filters != [] ==> c.kind == "" && c.ids == [] && c.names == [] && |c.types| == 1)
    && (c.kind == "" || ValidToken(c.kind))
    && ValidTokens(c.types)
    && (c.ids != [] ==> |c.types| == 1) && ValidTokens(c.ids)
    && (c.names != [] ==> |c.types| == 1) && ValidTokens(c.names)
    && (forall i | 0 <= i < |c.filters| :: ValidFilter(c.filters[i]))
    && (c.scope == "" || ValidToken(c.scope))
  }

  /** What `SubscribeEvents` goes on with. */
  predicate Subscribable(c: Config) {
    ConfigValid(c) && c.scope != "" && |c.types| == 1
  }

  function KindOrEvent(kind: string): string {
    if kind == "" then KIND_EVENT else kind
  }

  function WildcardIfEmpty(values: seq<string>): seq<string> {
    if values == [] then ["*"] else values
  }

  predicate AnyOrIn(values: seq<string>, x: string) {
    values == [] || x in values
  }

  // -------------------------------------------------------- pattern compaction

  predicate Covers(c: seq<string>, f: seq<string>) {
    |c| == |f| && forall i | 0 <= i < |c| :: Admits(c[i], f[i])
  }

  /** `subjectFilterCovers`. */
  predicate PatternCovers(candidate: string, filter: string) {
    Covers(Split(candidate), Split(filter))
  }

  lemma PatternCoverOrder()
    ensures CoverOrder(PatternCovers)
  {
    forall x: string, y: string | PatternCovers(x, y) && PatternCovers(y, x) ensures x == y {
      assert Split(x) == Split(y);
      SplitInjective(x, y);
    }
  }

  predicate EndsOpen(pattern: string) {
    var parts := Split(pattern);
    parts[|parts| - 1] == ">"
  }

  lemma {:induction false} OpenTokensCover(c: seq<string>, f: seq<string>, tokens: seq<string>)
    requires c != [] && Covers(c, f) && c[|c| - 1] == ">" && TokensMatch(f, tokens)
    ensures TokensMatch(c, tokens)
  {
    if |c| > 1 {
      OpenTokensCover(c[1..], f[1..], tokens[1..]);
    }
  }

  /** Covering is sound unless an open-ended pattern is covered by one that is not. */
  lemma CoveringKeepsMatches(candidate: string, filter: string, subject: string)
    requires PatternCovers(candidate, filter) && (EndsOpen(filter) ==> EndsOpen(candidate)) && Matches(filter, subject)
    ensures Matches(candidate, subject)
  {
    if EndsOpen(filter) {
      OpenTokensCover(Split(candidate), Split(filter), Split(subject));
    } else {
      TokensMatchPointwise(Split(filter), Split(subject));
      TokensMatchPointwise(Split(candidate), Split(subject));
    }
  }

  lemma {:induction false} OpenPatternReachesFurther(pattern: seq<string>, x: string)
    requires pattern != [] && pattern[|pattern| - 1] == ">"
    ensures TokensMatch(pattern, pattern[..|pattern| - 1] + [x, x])
  {
    var tokens := pattern[..|pattern| - 1] + [x, x];
    if |pattern| > 1 {
      OpenPatternReachesFurther(pattern[1..], x);
      assert tokens[1..] == pattern[1..][..|pattern| - 2] + [x, x];
    }
  }

  /** `subjectFilterCovers` is right about a pair, for all subjects, exactly when it does not
      put an open-ended pattern under one that is not. */
  lemma CoveringSoundIff(candidate: string, filter: string)
    requires PatternCovers(candidate, filter)
    ensures (forall subject | Matches(filter, subject) :: Matches(candidate, subject))
            <==> (EndsOpen(filter) ==> EndsOpen(candidate))
  {
    if EndsOpen(filter) ==> EndsOpen(candidate) {
      forall subject | Matches(filter, subject) ensures Matches(candidate, subject) {
        CoveringKeepsMatches(candidate, filter, subject);
      }
    } else {
      var f := Split(filter);
      var tokens := f[..|f| - 1] + ["x", "x"];
      SplitDotless(filter);
      SplitJoin(tokens);
      OpenPatternReachesFurther(f, "x");
      TokensMatchPointwise(Split(candidate), tokens);
      assert Matches(filter, Join(tokens)) && !Matches(candidate, Join(tokens));
    }
  }

  /** `compactSubjectFilters`. */
  method CompactSubjectFilters(filters: seq<string>) returns (out: seq<string>)
    ensures IsCompaction(PatternCovers, StringLess, Elements(filters), out)
  {
    StringOrder();
    out := Compact(PatternCovers, StringLess, filters);
  }

  ghost predicate AnyMatches(patterns: set<string>, s: Subject) {
    exists p :: p in patterns && Matches(p, s.ToString())
  }

  /** Some pattern lets the subject's message through to the client. */
  ghost predicate Delivered(patterns: seq<string>, s: Subject) {
    AnyMatches(Elements(patterns), s)
  }

  /** MAIN RESULT: compacting patterns keeps exactly the matched subjects, for every list
      in which no open-ended pattern is covered by one that is not. */
  lemma PatternCompactionExact(all: set<string>, out: seq<string>, s: Subject)
    requires IsCompaction(PatternCovers, StringLess, all, out)
    requires forall p, q | p in all && q in all && PatternCovers(p, q) && EndsOpen(q) :: EndsOpen(p)
    ensures AnyMatches(all, s) <==> Delivered(out, s)
  {
    PatternCoverOrder();
    var accepts := (p: string) => Matches(p, s.ToString());
    forall x, y | x in all && y in all && PatternCovers(x, y) && accepts(y) ensures accepts(x) {
      CoveringKeepsMatches(x, y, s.ToString());
    }
    CompactionKeepsAcceptance(PatternCovers, StringLess, accepts, all, out);
    assert forall p :: accepts(p) == Matches(p, s.ToString());
    assert forall p :: p in out <==> p in Elements(out);
  }

  /** Otherwise it need not: `*` is taken to cover `>`, which also matches `a.b`. The
      compilers below never produce such a list. */
  lemma OpenPatternIsLost()
    ensures PatternCovers("*", ">") && Matches(">", "a.b") && !Matches("*", "a.b")
  {
    SplitJoin(["*"]);
    SplitJoin([">"]);
    SplitJoin(["a", "b"]);
    assert ["a", "b"][1..] == ["b"];
    assert Join(["b"]) == "b" && Join(["a", "b"]) == "a.b";
  }

  // ----------------------------------------------------------- event filters

  ghost predicate InNames(scope: string, kind: string, typ: string, id: string, names: seq<string>, p: string) {
    exists n :: n in names && p == Join([scope, kind, typ, id, n])
  }

  ghost predicate InIds(scope: string, kind: string, typ: string, ids: seq<string>, names: seq<string>, p: string) {
    exists i :: i in ids && InNames(scope, kind, typ, i, names, p)
  }

  method AppendNames(scope: string, kind: string, typ: string, id: string, names: seq<string>, filters: seq<string>)
    returns (out: seq<string>)
    ensures forall p :: p in out <==> p in filters || InNames(scope, kind, typ, id, names, p)
  {
    out := filters;
    for k := 0 to |names|
      invariant forall p :: p in out <==> p in filters || InNames(scope, kind, typ, id, names[..k], p)
    {
      assert names[..k + 1] == names[..k] + [names[k]];
      out := out + [Join([scope, kind, typ, id, names[k]])];
    }
    assert names[..|names|] == names;
  }

  method AppendIds(scope: string, kind: string, typ: string, ids: seq<string>, names: seq<string>, filters: seq<string>)
    returns (out: seq<string>)
    ensures forall p :: p in out <==> p in filters || InIds(scope, kind, typ, ids, names, p)
  {
    out := filters;
    for k := 0 to |ids|
      invariant forall p :: p in out <==> p in filters || InIds(scope, kind, typ, ids[..k], names, p)
    {
      assert ids[..k + 1] == ids[..k] + [ids[k]];
      out := AppendNames(scope, kind, typ, ids[k], names, out);
    }
    assert ids[..|ids|] == ids;
  }

  ghost predicate InFilter(c: Config, f: SubscriptionFilter, p: string)
    requires |c.types| == 1
  {
    InIds(c.scope, KindOrEvent(f.kind), c.types[0], WildcardIfEmpty(f.ids), WildcardIfEmpty(f.names), p)
  }

  ghost predicate InSome(c: Config, fs: seq<SubscriptionFilter>, p: string)
    requires |c.types| == 1
  {
    exists f :: f in fs && InFilter(c, f, p)
  }

  lemma InSomeSnoc(c: Config, fs: seq<SubscriptionFilter>, f: SubscriptionFilter, p: string)
    requires |c.types| == 1
    ensures InSome(c, fs + [f], p) <==> InSome(c, fs, p) || InFilter(c, f, p)
  {
    assert f in fs + [f];
  }

  /** The pattern strings before compaction. */
  ghost predicate RawPattern(c: Config, p: string)
    requires |c.types| == 1
  {
    if c.filters == [] then InFilter(c, SubscriptionFilter(c.kind, c.ids, c.names), p)
    else InSome(c, c.filters, p)
  }

  /** `eventFilterSubjects`. */
  method EventFilterSubjects(c: Config) returns (raw: seq<string>)
    requires |c.types| == 1
    ensures forall p :: p in raw <==> InSome(c, c.filters, p)
  {
    raw := [];
    for k := 0 to |c.filters|
      invariant forall p :: p in raw <==> InSome(c, c.filters[..k], p)
    {
      var f := c.filters[k];
      ghost var before := raw;
      raw := AppendIds(c.scope, KindOrEvent(f.kind), c.types[0], WildcardIfEmpty(f.ids), WildcardIfEmpty(f.names), raw);
      assert c.filters[..k + 1] == c.filters[..k] + [f];
      forall p ensures p in raw <==> InSome(c, c.filters[..k + 1], p) {
        InSomeSnoc(c, c.filters[..k], f, p);
        assert p in raw <==> p in before || InFilter(c, f, p);
      }
    }
    assert c.filters[..|c.filters|] == c.filters;
  }

  /** `patterns` is the compaction of the config's pattern strings `raw`. */
  ghost predicate CompactedFrom(c: Config, raw: set<string>, patterns: seq<string>)
    requires |c.types| == 1
  {
    && (forall p :: p in raw <==> RawPattern(c, p))
    && IsCompaction(PatternCovers, StringLess, raw, patterns)
  }

  ghost function FilterPatterns(c: Config, f: SubscriptionFilter): set<string>
    requires |c.types| == 1
  {
    set i, n | i in WildcardIfEmpty(f.ids) && n in WildcardIfEmpty(f.names) ::
      Join([c.scope, KindOrEvent(f.kind), c.types[0], i, n])
  }

  lemma InFilterPatterns(c: Config, f: SubscriptionFilter, p: string)
    requires |c.types| == 1
    ensures p in FilterPatterns(c, f) <==> InFilter(c, f, p)
  {
    var kind, names := KindOrEvent(f.kind), WildcardIfEmpty(f.names);
    if p in FilterPatterns(c, f) {
      var i, n :| i in WildcardIfEmpty(f.ids) && n in names && p == Join([c.scope, kind, c.types[0], i, n]);
      assert InNames(c.scope, kind, c.types[0], i, names, p);
    }
  }

  /** Every config compiles to patterns. */
  lemma PatternsExist(c: Config) returns (raw: set<string>, patterns: seq<string>)
    requires |c.types| == 1
    ensures CompactedFrom(c, raw, patterns)
  {
    raw := if c.filters == [] then FilterPatterns(c, SubscriptionFilter(c.kind, c.ids, c.names))
           else set f, p | f in c.filters && p in FilterPatterns(c, f) :: p;
    forall f, p ensures p in FilterPatterns(c, f) <==> InFilter(c, f, p) {
      InFilterPatterns(c, f, p);
    }
    hide FilterPatterns, InFilter;
    StringOrder();
    patterns := CompactionExists(PatternCovers, StringLess, raw);
  }

  /** `eventFilters` for the one aggregate type a NATS subscription has: the server delivers
      exactly the events the reference accepts. */
  method EventFilters(c: Config) returns (patterns: seq<string>)
    requires |c.types| == 1
    ensures exists raw :: CompactedFrom(c, raw, patterns)
    ensures Subscribable(c) ==> forall s: Subject | s.Valid() :: Delivered(patterns, s) <==> ConfigAccepts(c, s)
  {
    var filters;
    if c.filters != [] {
      filters := EventFilterSubjects(c);
    } else {
      filters := AppendIds(c.scope, KindOrEvent(c.kind), c.types[0], WildcardIfEmpty(c.ids), WildcardIfEmpty(c.names),
          []);
    }
    patterns := CompactSubjectFilters(filters);
    ghost var raw := Elements(filters);
    assert CompactedFrom(c, raw, patterns);
    if Subscribable(c) {
      forall s: Subject | s.Valid() ensures Delivered(patterns, s) <==> ConfigAccepts(c, s) {
        OrderedAgreesWithReference(c, raw, patterns, s);
      }
    }
  }

  // -------------------------------------------- client re-check and reference

  /** `eventFilterMatchesSubject`, and `eventFilterMatches` of the testkit. */
  predicate FilterAccepts(f: SubscriptionFilter, s: Subject) {
    s.kind == KindOrEvent(f.kind) && AnyOrIn(f.ids, s.aggregateId) && AnyOrIn(f.names, s.name)
  }

  ghost predicate SomeFilterAccepts(filters: seq<SubscriptionFilter>, s: Subject) {
    exists f :: f in filters && FilterAccepts(f, s)
  }

  /** `subscriptionSubjectMatches`: note that it does not look at scope, type or, without
      event filters, ids. */
  method SubscriptionSubjectMatches(c: Config, s: Subject) returns (ok: bool)
    ensures ok == Recheck(c, s)
  {
    if c.filters != [] {
      for k := 0 to |c.filters|
        invariant forall j | 0 <= j < k :: !FilterAccepts(c.filters[j], s)
      {
        if FilterAccepts(c.filters[k], s) {
          assert c.filters[k] in c.filters;
          return true;
        }
      }
      return false;
    }
    if s.kind != KindOrEvent(c.kind) {
      return false;
    }
    return c.names == [] || s.name in c.names;
  }

  ghost predicate Recheck(c: Config, s: Subject) {
    if c.filters != [] then SomeFilterAccepts(c.filters, s)
    else s.kind == KindOrEvent(c.kind) && AnyOrIn(c.names, s.name)
  }

  /** What `handleMessage` passes on to the handler, of what the server delivers. */
  ghost predicate Handled(c: Config, patterns: seq<string>, s: Subject) {
    Delivered(patterns, s) && Recheck(c, s) && AnyOrIn(c.ids, s.aggregateId)
  }

  /** `eventConfigMatches` of the testkit, the reference. */
  ghost predicate ConfigAccepts(c: Config, s: Subject) {
    && (c.scope == "" || c.scope == s.scope)
    && (if c.filters != [] then AnyOrIn(c.types, s.aggregateType) && SomeFilterAccepts(c.filters, s)
        else
          && KindOrEvent(c.kind) == s.kind && AnyOrIn(c.types, s.aggregateType)
          && AnyOrIn(c.ids, s.aggregateId) && AnyOrIn(c.names, s.name))
  }

  /** A config or filter without a kind is about events. */
  lemma MissingKindMeansEvent(c: Config, f: SubscriptionFilter, s: Subject)
    ensures FilterAccepts(f.(kind := ""), s) <==> s.kind == "event" && FilterAccepts(f.(kind := "event"), s)
    ensures c.filters == [] && c.kind == "" && ConfigAccepts(c, s) ==> s.kind == "event"
    ensures c.filters == [] ==> (ConfigAccepts(c.(kind := ""), s) <==> ConfigAccepts(c.(kind := "event"), s))
  {
  }

  // ---------------------------------------------------------------- agreement

  lemma WildcardAdmits(values: seq<string>, x: string)
    requires ValidTokens(values)
    ensures (exists t :: t in WildcardIfEmpty(values) && Admits(t, x)) <==> AnyOrIn(values, x)
    ensures forall t | t in WildcardIfEmpty(values) :: FilterToken(t)
  {
    if values == [] {
      assert "*" in WildcardIfEmpty(values);
    } else {
      forall t | t in values ensures t != "*" { ValidTokenIsPlain(t); }
      if x in values { assert Admits(x, x); }
    }
  }

  lemma PatternOfTokens(scope: string, kind: string, typ: string, id: string, name: string, s: Subject)
    requires ValidToken(scope) && ValidToken(kind) && ValidToken(typ) && FilterToken(id) && FilterToken(name)
    requires s.Valid()
    ensures !EndsOpen(Join([scope, kind, typ, id, name]))
    ensures Matches(Join([scope, kind, typ, id, name]), s.ToString()) <==>
            s.scope == scope && s.kind == kind && s.aggregateType == typ && Admits(id, s.aggregateId)
                && Admits(name, s.name)
  {
    var parts := [scope, kind, typ, id, name];
    FilterMatchesSubject(parts, s);
    FilterTokensDotless(parts);
    SplitJoin(parts);
    ValidTokenIsPlain(scope);
    ValidTokenIsPlain(kind);
    ValidTokenIsPlain(typ);
    if name != "*" { ValidTokenIsPlain(name); }
    var t := s.Tokens();
    assert Matches(Join(parts), s.ToString()) <==>
      Admits(parts[0], t[0]) && Admits(parts[1], t[1]) && Admits(parts[2], t[2]) && Admits(parts[3], t[3])
          && Admits(parts[4], t[4]);
  }

  lemma FilterPatternsExact(c: Config, f: SubscriptionFilter, s: Subject)
    requires |c.types| == 1 && ValidToken(c.scope) && ValidToken(c.types[0]) && ValidFilter(f) && s.Valid()
    ensures (exists p :: InFilter(c, f, p) && Matches(p, s.ToString())) <==>
            c.scope == s.scope && c.types[0] == s.aggregateType && FilterAccepts(f, s)
    ensures forall p | InFilter(c, f, p) :: !EndsOpen(p)
  {
    KindEventIsValid();
    var kind, typ := KindOrEvent(f.kind), c.types[0];
    WildcardAdmits(f.ids, s.aggregateId);
    WildcardAdmits(f.names, s.name);
    forall p | InFilter(c, f, p)
      ensures !EndsOpen(p)
      ensures Matches(p, s.ToString()) ==> c.scope == s.scope && typ == s.aggregateType && FilterAccepts(f, s)
    {
      var id :| id in WildcardIfEmpty(f.ids) && InNames(c.scope, kind, typ, id, WildcardIfEmpty(f.names), p);
      var name :| name in WildcardIfEmpty(f.names) && p == Join([c.scope, kind, typ, id, name]);
      PatternOfTokens(c.scope, kind, typ, id, name, s);
    }
    if c.scope == s.scope && typ == s.aggregateType && FilterAccepts(f, s) {
      var id :| id in WildcardIfEmpty(f.ids) && Admits(id, s.aggregateId);
      var name :| name in WildcardIfEmpty(f.names) && Admits(name, s.name);
      PatternOfTokens(c.scope, kind, typ, id, name, s);
      var p := Join([c.scope, kind, typ, id, name]);
      assert InNames(c.scope, kind, typ, id, WildcardIfEmpty(f.names), p);
      assert InFilter(c, f, p);
    }
  }

  lemma RawPatternsExact(c: Config, raw: set<string>, s: Subject)
    requires Subscribable(c) && s.Valid()
    requires forall p :: p in raw <==> RawPattern(c, p)
    ensures AnyMatches(raw, s) <==> ConfigAccepts(c, s)
    ensures forall p | p in raw :: !EndsOpen(p)
  {
    assert ValidToken(c.types[0]);
    if c.filters == [] {
      FilterPatternsExact(c, SubscriptionFilter(c.kind, c.ids, c.names), s);
    } else {
      forall f | f in c.filters
        ensures (exists p :: InFilter(c, f, p) && Matches(p, s.ToString())) <==>
                c.scope == s.scope && c.types[0] == s.aggregateType && FilterAccepts(f, s)
        ensures forall p | InFilter(c, f, p) :: !EndsOpen(p)
      {
        FilterPatternsExact(c, f, s);
      }
      if p :| p in raw && Matches(p, s.ToString()) {
        var f :| f in c.filters && InFilter(c, f, p);
      }
      if f :| f in c.filters && FilterAccepts(f, s) && c.scope == s.scope && c.types[0] == s.aggregateType {
        var p :| InFilter(c, f, p) && Matches(p, s.ToString());
        assert p in raw;
      }
    }
  }

  lemma AcceptedPassesRecheck(c: Config, s: Subject)
    requires Subscribable(c) && ConfigAccepts(c, s)
    ensures Recheck(c, s) && AnyOrIn(c.ids, s.aggregateId)
  {
  }

  /** MAIN RESULT: an ordered subscription handles exactly the events the reference accepts. */
  lemma OrderedAgreesWithReference(c: Config, raw: set<string>, patterns: seq<string>, s: Subject)
    requires Subscribable(c) && s.Valid()
    requires forall p :: p in raw <==> RawPattern(c, p)
    requires IsCompaction(PatternCovers, StringLess, raw, patterns)
    ensures Delivered(patterns, s) <==> ConfigAccepts(c, s)
    ensures Handled(c, patterns, s) <==> ConfigAccepts(c, s)
  {
    RawPatternsExact(c, raw, s);
    PatternCompactionExact(raw, patterns, s);
    if ConfigAccepts(c, s) { AcceptedPassesRecheck(c, s); }
  }

  // ------------------------------------------------------------------- queues

  /** The subscription is about one kind and one id, whatever the names. */
  ghost predicate OneInstance(c: Config, kind: string, id: string) {
    if c.filters == [] then c.ids == [id] && kind == KindOrEvent(c.kind)
    else forall i | 0 <= i < |c.filters| :: c.filters[i].ids == [id] && KindOrEvent(c.filters[i].kind) == kind
  }

  /** `aggregateInstanceQueueScope`. */
  method AggregateInstanceQueueScope(c: Config) returns (kind: string, id: string, ok: bool)
    requires ConfigValid(c)
    ensures ok ==> OneInstance(c, kind, id) && ValidToken(kind) && ValidToken(id)
    ensures !ok ==> forall k, i :: !OneInstance(c, k, i)
  {
    KindEventIsValid();
    if c.filters == [] {
      if |c.ids| != 1 {
        return "", "", false;
      }
      return KindOrEvent(c.kind), c.ids[0], true;
    }
    kind, id := "", "";
    for j := 0 to |c.filters|
      invariant kind == "" <==> j == 0
      invariant j > 0 ==> ValidToken(kind) && ValidToken(id)
      invariant forall i | 0 <= i < j :: c.filters[i].ids == [id] && KindOrEvent(c.filters[i].kind) == kind
    {
      var f := c.filters[j];
      assert ValidFilter(f);
      if |f.ids| != 1 {
        return "", "", false;
      }
      var k, i := KindOrEvent(f.kind), f.ids[0];
      assert f.ids == [i];
      if kind == "" {
        kind, id := k, i;
        continue;
      }
      if kind != k || id != i {
        assert c.filters[0].ids == [id] && KindOrEvent(c.filters[0].kind) == kind;
        return "", "", false;
      }
    }
    ok := kind != "" && id != "";
  }

  /** The patterns of a queue consumer: compacted ones, or one open pattern instead of
      several about one instance. */
  ghost predicate QueueCompiled(c: Config, raw: set<string>, compacted: seq<string>, patterns: seq<string>)
    requires |c.types| == 1
  {
    && CompactedFrom(c, raw, compacted)
    && (patterns == compacted || Collapsed(c, patterns))
    && (|compacted| <= 1 ==> patterns == compacted)
    && ((exists k, i :: OneInstance(c, k, i)) && |compacted| > 1 ==> |patterns| == 1)
  }

  /** `queueConsumerFilters`: several patterns about one instance become one open pattern;
      what is handled in the end is exactly what the reference accepts. */
  method QueueConsumerFilters(c: Config) returns (patterns: seq<string>)
    requires Subscribable(c)
    ensures exists raw, compacted :: QueueCompiled(c, raw, compacted, patterns)
    ensures forall s: Subject | s.Valid() :: Handled(c, patterns, s) <==> ConfigAccepts(c, s)
  {
    patterns := EventFilters(c);
    ghost var compacted := patterns;
    ghost var raw :| CompactedFrom(c, raw, compacted);
    if |patterns| > 1 {
      var kind, id, ok := AggregateInstanceQueueScope(c);
      if ok {
        patterns := [Join([c.scope, kind, c.types[0], id, ">"])];
        assert CollapsedTo(c, patterns, kind, id);
      }
    }
    assert QueueCompiled(c, raw, compacted, patterns);
    forall s: Subject | s.Valid() ensures Handled(c, patterns, s) <==> ConfigAccepts(c, s) {
      QueueAgreesWithReference(c, raw, compacted, patterns, s);
    }
  }

  ghost predicate CollapsedTo(c: Config, patterns: seq<string>, kind: string, id: string)
    requires |c.types| == 1
  {
    && OneInstance(c, kind, id) && ValidToken(kind) && ValidToken(id)
    && patterns == [Join([c.scope, kind, c.types[0], id, ">"])]
  }

  ghost predicate Collapsed(c: Config, patterns: seq<string>)
    requires |c.types| == 1
  {
    exists kind, id :: CollapsedTo(c, patterns, kind, id)
  }

  lemma CollapsedDelivers(c: Config, patterns: seq<string>, kind: string, id: string, s: Subject)
    requires Subscribable(c) && s.Valid() && CollapsedTo(c, patterns, kind, id)
    ensures Delivered(patterns, s) <==>
            s.scope == c.scope && s.kind == kind && s.aggregateType == c.types[0] && s.aggregateId == id
  {
    var parts := [c.scope, kind, c.types[0], id, ">"];
    assert ValidToken(c.types[0]);
    TailFilterMatchesSubject(parts, s);
    ValidTokenIsPlain(c.scope);
    ValidTokenIsPlain(kind);
    ValidTokenIsPlain(c.types[0]);
    ValidTokenIsPlain(id);
    var t := s.Tokens();
    assert Matches(Join(parts), s.ToString()) <==>
      Admits(parts[0], t[0]) && Admits(parts[1], t[1]) && Admits(parts[2], t[2]) && Admits(parts[3], t[3]);
    assert Join(parts) in Elements(patterns);
  }

  /** MAIN RESULT: a queue subscription, collapsed or not, handles exactly the events the
      reference accepts: what the open pattern lets in too many, the re-check drops. */
  lemma QueueAgreesWithReference(c: Config, raw: set<string>, compacted: seq<string>, patterns: seq<string>, s: Subject)
    requires Subscribable(c) && s.Valid()
    requires forall p :: p in raw <==> RawPattern(c, p)
    requires IsCompaction(PatternCovers, StringLess, raw, compacted)
    requires patterns == compacted || Collapsed(c, patterns)
    ensures Handled(c, patterns, s) <==> ConfigAccepts(c, s)
  {
    if patterns == compacted {
      OrderedAgreesWithReference(c, raw, patterns, s);
    } else {
      var kind, id :| CollapsedTo(c, patterns, kind, id);
      CollapsedDelivers(c, patterns, kind, id, s);
      if c.filters == [] {
        assert AnyOrIn(c.ids, s.aggregateId) <==> s.aggregateId == id;
      } else {
        forall f | f in c.filters && FilterAccepts(f, s) ensures s.kind == kind && s.aggregateId == id {
          var i :| 0 <= i < |c.filters| && c.filters[i] == f;
        }
      }
    }
  }
}

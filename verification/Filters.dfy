/** The bus's filter specs, one or more per handler, and their compaction. */
module Filters {
  import opened Subjects
  import opened Compaction

  // ------------------------------------------------------------ string order

  /** `strings.Compare(a, b) < 0`. */
  predicate StringLess(a: string, b: string) {
    b != "" && (a == "" || a[0] < b[0] || (a[0] == b[0] && StringLess(a[1..], b[1..])))
  }

  lemma {:induction false} StringLessIrreflexive(a: string)
    ensures !StringLess(a, a)
  {
    if a != "" { StringLessIrreflexive(a[1..]); }
  }

  lemma {:induction false} StringLessTransitive(a: string, b: string, c: string)
    requires StringLess(a, b) && StringLess(b, c)
    ensures StringLess(a, c)
  {
    if a != "" && a[0] == b[0] == c[0] { StringLessTransitive(a[1..], b[1..], c[1..]); }
  }

  lemma {:induction false} StringLessTotal(a: string, b: string)
    ensures a == b || StringLess(a, b) || StringLess(b, a)
  {
    if a != "" && b != "" && a[0] == b[0] {
      StringLessTotal(a[1..], b[1..]);
      assert a == [a[0]] + a[1..] && b == [b[0]] + b[1..];
    }
  }

  /** The strings agree up to `n`, and there the first one ends or has the smaller character. */
  predicate LessAt(a: string, b: string, n: nat) {
    n <= |a| && n < |b| && a[..n] == b[..n] && (n == |a| || a[n] < b[n])
  }

  /** The order is the dictionary order by code points. */
  lemma {:induction false} StringLessIff(a: string, b: string)
    ensures StringLess(a, b) <==> exists n: nat :: LessAt(a, b, n)
  {
    if a == "" || b == "" {
      if b != "" { assert LessAt(a, b, 0); }
    } else if a[0] != b[0] {
      if a[0] < b[0] { assert LessAt(a, b, 0); }
      if n: nat :| LessAt(a, b, n) {
        assert n > 0 ==> a[..n][0] == b[..n][0];
      }
    } else {
      StringLessIff(a[1..], b[1..]);
      if n: nat :| LessAt(a[1..], b[1..], n) {
        assert a[..n + 1] == [a[0]] + a[1..][..n] && b[..n + 1] == [b[0]] + b[1..][..n];
        assert LessAt(a, b, n + 1);
      }
      if n: nat :| LessAt(a, b, n) {
        assert n > 0;
        assert a[1..][..n - 1] == a[..n][1..] && b[1..][..n - 1] == b[..n][1..];
        assert LessAt(a[1..], b[1..], n - 1);
      }
    }
  }

  lemma StringOrder()
    ensures StrictTotalOrder(StringLess)
  {
    forall x: string ensures !StringLess(x, x) { StringLessIrreflexive(x); }
    forall x: string, y: string, z: string | StringLess(x, y) && StringLess(y, z) ensures StringLess(x, z) {
      StringLessTransitive(x, y, z);
    }
    forall x: string, y: string ensures x == y || StringLess(x, y) || StringLess(y, x) { StringLessTotal(x, y); }
  }

  // ------------------------------------------------------------ filter specs

  /** What one handler asks for; an empty id or name means any. */
  datatype FilterSpec = FilterSpec(kind: string, id: string, name: string)

  /** `eventFilterSpecCovers`. */
  predicate SpecCovers(candidate: FilterSpec, filter: FilterSpec) {
    && candidate.kind == filter.kind
    && (candidate.id == "" || candidate.id == filter.id)
    && (candidate.name == "" || candidate.name == filter.name)
  }

  /** The comparison `compactEventFilterSpecs` sorts with. */
  predicate SpecLess(a: FilterSpec, b: FilterSpec) {
    if a.kind != b.kind then StringLess(a.kind, b.kind)
    else if a.id != b.id then StringLess(a.id, b.id)
    else StringLess(a.name, b.name)
  }

  lemma SpecLessTransitive(a: FilterSpec, b: FilterSpec, c: FilterSpec)
    requires SpecLess(a, b) && SpecLess(b, c)
    ensures SpecLess(a, c)
  {
    StringLessIrreflexive(a.kind);
    StringLessIrreflexive(a.id);
    if a.kind != b.kind && b.kind != c.kind { StringLessTransitive(a.kind, b.kind, c.kind); }
    if a.id != b.id && b.id != c.id && a.kind == b.kind == c.kind { StringLessTransitive(a.id, b.id, c.id); }
    if a.kind == b.kind == c.kind && a.id == b.id == c.id { StringLessTransitive(a.name, b.name, c.name); }
  }

  lemma SpecOrder()
    ensures StrictTotalOrder(SpecLess)
    ensures CoverOrder(SpecCovers)
  {
    forall x: FilterSpec ensures !SpecLess(x, x) { StringLessIrreflexive(x.name); }
    forall x: FilterSpec, y: FilterSpec, z: FilterSpec | SpecLess(x, y) && SpecLess(y, z) ensures SpecLess(x, z) {
      SpecLessTransitive(x, y, z);
    }
    forall x: FilterSpec, y: FilterSpec ensures x == y || SpecLess(x, y) || SpecLess(y, x) {
      StringLessTotal(x.kind, y.kind);
      StringLessTotal(x.id, y.id);
      StringLessTotal(x.name, y.name);
    }
  }

  predicate SpecAccepts(spec: FilterSpec, s: Subject) {
    spec.kind == s.kind && (spec.id == "" || spec.id == s.aggregateId) && (spec.name == "" || spec.name == s.name)
  }

  lemma StringLessAsymmetric(a: string, b: string)
    requires StringLess(a, b)
    ensures !StringLess(b, a)
  {
    if StringLess(b, a) {
      StringLessTransitive(a, b, a);
      StringLessIrreflexive(a);
    }
  }

  /** By kind, then by id, then by name. */
  lemma SpecLessMeans(x: FilterSpec, y: FilterSpec)
    requires SpecLess(x, y)
    ensures !StringLess(y.kind, x.kind)
    ensures x.kind == y.kind ==> !StringLess(y.id, x.id)
    ensures x.kind == y.kind && x.id == y.id ==> StringLess(x.name, y.name)
  {
    StringLessIrreflexive(x.kind);
    StringLessIrreflexive(x.id);
    if x.kind != y.kind {
      StringLessAsymmetric(x.kind, y.kind);
    } else if x.id != y.id {
      StringLessAsymmetric(x.id, y.id);
    }
  }

  /** `compactEventFilterSpecs`: the maximal specs, by kind, then by id, then by name. */
  method CompactEventFilterSpecs(filters: seq<FilterSpec>) returns (out: seq<FilterSpec>)
    ensures IsCompaction(SpecCovers, SpecLess, Elements(filters), out)
    ensures forall i, j | 0 <= i < j < |out| ::
              && !StringLess(out[j].kind, out[i].kind)
              && (out[i].kind == out[j].kind ==> !StringLess(out[j].id, out[i].id))
              && (out[i].kind == out[j].kind && out[i].id == out[j].id ==> StringLess(out[i].name, out[j].name))
  {
    SpecOrder();
    out := Compact(SpecCovers, SpecLess, filters);
    forall i, j | 0 <= i < j < |out|
      ensures !StringLess(out[j].kind, out[i].kind)
      ensures out[i].kind == out[j].kind ==> !StringLess(out[j].id, out[i].id)
      ensures out[i].kind == out[j].kind && out[i].id == out[j].id ==> StringLess(out[i].name, out[j].name)
    {
      SpecLessMeans(out[i], out[j]);
    }
  }

  /** MAIN RESULT: compacting specs keeps exactly the accepted subjects. */
  lemma SpecCompactionExact(all: set<FilterSpec>, out: seq<FilterSpec>, s: Subject)
    requires IsCompaction(SpecCovers, SpecLess, all, out)
    ensures (exists f :: f in all && SpecAccepts(f, s)) <==> (exists f :: f in out && SpecAccepts(f, s))
  {
    SpecOrder();
    var accepts := (f: FilterSpec) => SpecAccepts(f, s);
    CompactionKeepsAcceptance(SpecCovers, SpecLess, accepts, all, out);
    assert forall f :: accepts(f) == SpecAccepts(f, s);
  }

  predicate ValidSpec(f: FilterSpec) {
    ValidToken(f.kind) && (f.id == "" || ValidToken(f.id)) && (f.name == "" || ValidToken(f.name))
  }

  /** A valid token of the given length; longer than everything in sight, it is fresh. */
  function Fresh(n: nat): (t: string)
    ensures |t| == n + 1 && ValidToken(t)
  {
    seq(n + 1, _ => 'a')
  }

  function TotalLength(specs: seq<FilterSpec>): (n: nat)
    ensures forall f | f in specs :: |f.id| <= n && |f.name| <= n
  {
    if specs == [] then 0 else |specs[0].id| + |specs[0].name| + TotalLength(specs[1..])
  }

  /** A subject that only the given spec of a compacted list accepts: its own tokens where
      it names them, fresh ones where it does not. */
  function Witness(out: seq<FilterSpec>, f: FilterSpec, scope: string, aggregateType: string): Subject {
    var n := TotalLength(out);
    Subject(scope, f.kind, aggregateType, if f.id == "" then Fresh(n) else f.id, if f.name == "" then Fresh(n)
        else f.name)
  }

  /** MAIN RESULT: the compacted specs are irredundant: dropping any one of them would lose
      a subject, and a valid one if the spec's own tokens are. */
  lemma SpecCompactionIrredundant(all: set<FilterSpec>, out: seq<FilterSpec>, f: FilterSpec, scope: string,
      aggregateType: string)
    requires IsCompaction(SpecCovers, SpecLess, all, out)
    requires f in out
    ensures
      var s := Witness(out, f, scope, aggregateType);
      && SpecAccepts(f, s)
      && (forall g | g in out && g != f :: !SpecAccepts(g, s))
      && (ValidToken(scope) && ValidToken(aggregateType) && ValidSpec(f) ==> s.Valid())
  {
    var s := Witness(out, f, scope, aggregateType);
    forall g | g in out && g != f ensures !SpecAccepts(g, s) {
      assert Maximal(SpecCovers, all, f) && g in all;
      assert |g.id| <= TotalLength(out) && |g.name| <= TotalLength(out);
    }
  }
}

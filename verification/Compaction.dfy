/** The compaction both filter compilers use: drop duplicates, drop every filter that
    another one covers, sort what is left. `covers` and `less` are parameters; the
    input order, which comes from Go map iteration, turns out not to matter. */
module Compaction {

  ghost predicate CoverOrder<T(!new)>(covers: (T, T) -> bool) {
    && (forall x :: covers(x, x))
    && (forall x, y | covers(x, y) && covers(y, x) :: x == y)
    && (forall x, y, z | covers(x, y) && covers(y, z) :: covers(x, z))
  }

  ghost predicate StrictTotalOrder<T(!new)>(less: (T, T) -> bool) {
    && (forall x :: !less(x, x))
    && (forall x, y, z | less(x, y) && less(y, z) :: less(x, z))
    && (forall x, y :: x == y || less(x, y) || less(y, x))
  }

  ghost predicate StrictlySorted<T>(less: (T, T) -> bool, s: seq<T>) {
    forall i, j | 0 <= i < j < |s| :: less(s[i], s[j])
  }

  ghost function Elements<T>(s: seq<T>): set<T> {
    set x | x in s
  }

  /** Not covered by any other member. */
  ghost predicate Maximal<T>(covers: (T, T) -> bool, all: set<T>, x: T) {
    x in all && forall y | y in all && y != x :: !covers(y, x)
  }

  /** `out` is the compaction of the filters in `all`. */
  ghost predicate IsCompaction<T(!new)>(covers: (T, T) -> bool, less: (T, T) -> bool, all: set<T>, out: seq<T>) {
    && StrictlySorted(less, out)
    && forall x :: x in out <==> Maximal(covers, all, x)
  }

  // ----------------------------------------------------------------- methods

  /** Inserts into a sorted slice: one step of the final sort. */
  function Insert<T>(less: (T, T) -> bool, x: T, s: seq<T>): seq<T> {
    if s == [] || less(x, s[0]) then [x] + s else [s[0]] + Insert(less, x, s[1..])
  }

  lemma {:induction false} InsertElements<T>(less: (T, T) -> bool, x: T, s: seq<T>)
    ensures forall y :: y in Insert(less, x, s) <==> y == x || y in s
  {
    if !(s == [] || less(x, s[0])) {
      InsertElements(less, x, s[1..]);
      assert forall y :: y in s <==> y == s[0] || y in s[1..];
    }
  }

  lemma {:induction false} InsertSorted<T(!new)>(less: (T, T) -> bool, x: T, s: seq<T>)
    requires StrictTotalOrder(less) && StrictlySorted(less, s) && x !in s
    ensures StrictlySorted(less, Insert(less, x, s))
  {
    if s != [] && !less(x, s[0]) {
      InsertSorted(less, x, s[1..]);
      InsertElements(less, x, s[1..]);
      var rest := Insert(less, x, s[1..]);
      forall y | y in rest ensures less(s[0], y) {
        if y != x {
          var i :| 0 <= i < |s[1..]| && s[1..][i] == y;
          assert less(s[0], s[i + 1]);
        }
      }
    }
  }

  method Sort<T(!new)>(less: (T, T) -> bool, s: seq<T>) returns (out: seq<T>)
    requires StrictTotalOrder(less)
    requires forall i, j | 0 <= i < j < |s| :: s[i] != s[j]
    ensures StrictlySorted(less, out)
    ensures forall x :: x in out <==> x in s
  {
    out := [];
    for i := 0 to |s|
      invariant StrictlySorted(less, out)
      invariant forall x :: x in out <==> x in s[..i]
    {
      InsertElements(less, s[i], out);
      InsertSorted(less, s[i], out);
      assert s[..i + 1] == s[..i] + [s[i]];
      out := Insert(less, s[i], out);
    }
    assert s[..|s|] == s;
  }

  method Dedupe<T(==)>(filters: seq<T>) returns (deduped: seq<T>)
    ensures forall i, j | 0 <= i < j < |deduped| :: deduped[i] != deduped[j]
    ensures forall x :: x in deduped <==> x in filters
  {
    var seen: set<T> := {};
    deduped := [];
    for i := 0 to |filters|
      invariant forall x :: x in seen <==> x in deduped
      invariant forall x :: x in deduped <==> x in filters[..i]
      invariant forall k, j | 0 <= k < j < |deduped| :: deduped[k] != deduped[j]
    {
      assert filters[..i + 1] == filters[..i] + [filters[i]];
      if filters[i] in seen {
        continue;
      }
      seen := seen + {filters[i]};
      deduped := deduped + [filters[i]];
    }
    assert filters[..|filters|] == filters;
  }

  /** The inner loop: is `filter` covered by another candidate? */
  method IsCovered<T(==)>(covers: (T, T) -> bool, deduped: seq<T>, filter: T) returns (covered: bool)
    requires filter in deduped
    ensures covered <==> !Maximal(covers, Elements(deduped), filter)
  {
    covered := false;
    for i := 0 to |deduped|
      invariant forall j | 0 <= j < i :: deduped[j] == filter || !covers(deduped[j], filter)
    {
      if deduped[i] == filter {
        continue;
      }
      if covers(deduped[i], filter) {
        assert deduped[i] in Elements(deduped);
        return true;
      }
    }
  }

  /** The whole compaction. */
  method Compact<T(!new, ==)>(covers: (T, T) -> bool, less: (T, T) -> bool, filters: seq<T>) returns (out: seq<T>)
    requires StrictTotalOrder(less)
    ensures IsCompaction(covers, less, Elements(filters), out)
  {
    var deduped := Dedupe(filters);
    assert Elements(deduped) == Elements(filters);
    var kept: seq<T> := [];
    for i := 0 to |deduped|
      invariant forall x :: x in kept <==> x in deduped[..i] && Maximal(covers, Elements(filters), x)
      invariant forall k, j | 0 <= k < j < |kept| :: kept[k] != kept[j]
    {
      assert deduped[..i + 1] == deduped[..i] + [deduped[i]];
      var covered := IsCovered(covers, deduped, deduped[i]);
      if !covered {
        assert deduped[i] !in deduped[..i];
        kept := kept + [deduped[i]];
      }
    }
    assert deduped[..|deduped|] == deduped;
    out := Sort(less, kept);
  }

  // -------------------------------------------------------------- properties

  lemma {:induction false} Sorted<T(!new)>(less: (T, T) -> bool, all: set<T>) returns (out: seq<T>)
    requires StrictTotalOrder(less)
    ensures StrictlySorted(less, out) && forall x :: x in out <==> x in all
    decreases all
  {
    out := [];
    if x :| x in all {
      var rest := Sorted(less, all - {x});
      InsertElements(less, x, rest);
      InsertSorted(less, x, rest);
      out := Insert(less, x, rest);
    }
  }

  /** Every finite set of filters has a compaction. */
  lemma CompactionExists<T(!new)>(covers: (T, T) -> bool, less: (T, T) -> bool, all: set<T>) returns (out: seq<T>)
    requires StrictTotalOrder(less)
    ensures IsCompaction(covers, less, all, out)
  {
    out := Sorted(less, set x | x in all && Maximal(covers, all, x));
  }

  lemma {:induction false} SortedUnique<T(!new)>(less: (T, T) -> bool, s: seq<T>, t: seq<T>)
    requires StrictTotalOrder(less)
    requires StrictlySorted(less, s) && StrictlySorted(less, t)
    requires forall x :: x in s <==> x in t
    ensures s == t
    decreases |s|
  {
    if s == [] {
      HeadIsElement(t);
    } else {
      assert s[0] in t && t != [] && t[0] in s;
      assert s[0] == t[0];
      forall x ensures x in s[1..] <==> x in t[1..] {
        SortedTail(less, s, x);
        SortedTail(less, t, x);
      }
      SortedUnique(less, s[1..], t[1..]);
    }
  }

  lemma HeadIsElement<T>(s: seq<T>)
    ensures s == [] || s[0] in s
  {
  }

  lemma SortedTail<T(!new)>(less: (T, T) -> bool, s: seq<T>, x: T)
    requires StrictTotalOrder(less) && StrictlySorted(less, s) && s != []
    ensures x in s[1..] <==> x in s && x != s[0]
  {
    if x in s[1..] {
      var i :| 0 <= i < |s[1..]| && s[1..][i] == x;
      assert less(s[0], s[i + 1]);
    }
  }

  /** MAIN RESULT: the compaction is canonical: any order and any repetition of the same
      filters gives the identical result. */
  lemma CompactionIsCanonical<T(!new)>(
      covers: (T, T) -> bool, less: (T, T) -> bool, xs: seq<T>, ys: seq<T>, out: seq<T>, out': seq<T>)
    requires StrictTotalOrder(less)
    requires forall x :: x in xs <==> x in ys
    requires IsCompaction(covers, less, Elements(xs), out) && IsCompaction(covers, less, Elements(ys), out')
    ensures out == out'
  {
    assert Elements(xs) == Elements(ys);
    SortedUnique(less, out, out');
  }

  /** Every filter is covered by one that is kept. */
  lemma {:induction false} KeptCoverer<T(!new)>(covers: (T, T) -> bool, all: set<T>, x: T) returns (m: T)
    requires CoverOrder(covers) && x in all
    ensures Maximal(covers, all, m) && covers(m, x)
    decreases set y | y in all && y != x && covers(y, x)
  {
    if y :| y in all && y != x && covers(y, x) {
      var above := set z | z in all && z != y && covers(z, y);
      forall z | z in above ensures z != x && covers(z, x) {}
      assert y !in above;
      m := KeptCoverer(covers, all, y);
    } else {
      m := x;
    }
  }

  /** MAIN RESULT: what a set of filters accepts, for any acceptance test that covering
      respects, is exactly what its compaction accepts. */
  lemma CompactionKeepsAcceptance<T(!new)>(
      covers: (T, T) -> bool, less: (T, T) -> bool, accepts: T -> bool, all: set<T>, out: seq<T>)
    requires CoverOrder(covers)
    requires IsCompaction(covers, less, all, out)
    requires forall x, y | x in all && y in all && covers(x, y) && accepts(y) :: accepts(x)
    ensures (exists x :: x in all && accepts(x)) <==> (exists x :: x in out && accepts(x))
  {
    if x :| x in all && accepts(x) {
      var m := KeptCoverer(covers, all, x);
      assert m in out && accepts(m);
    }
    if x :| x in out && accepts(x) {
      assert x in all;
    }
  }
}

/** The ranker sorts all scenario records by descending population with
    Python's `sorted(..., reverse=True, key=...)`, a stable sort: records with
    equal population keep their original relative order. This module defines
    that sort as a function and proves what it promises, together with the
    filters the ranker applies to its result. */
module Sorting {
  import opened Records

  /** A first-order filter condition on records. */
  datatype Criterion = NodesIs(n: int) | PopulationIs(v: int)

  predicate Keeps(c: Criterion, o: Scenario)
  {
    match c
    case NodesIs(n) => o.nodes == n
    case PopulationIs(v) => o.population == v
  }

  /** The records of `s` that satisfy `c`, in their order in `s`. */
  function Filter(s: seq<Scenario>, c: Criterion): (r: seq<Scenario>)
    ensures |r| <= |s|
  {
    if s == [] then []
    else if Keeps(c, s[0]) then [s[0]] + Filter(s[1..], c)
    else Filter(s[1..], c)
  }

  /** Every record the filter keeps is a record of the input that satisfies
      the condition. */
  lemma {:induction false} FilterMembers(s: seq<Scenario>, c: Criterion)
    ensures forall i :: 0 <= i < |Filter(s, c)| ==> Filter(s, c)[i] in s && Keeps(c, Filter(s, c)[i])
  {
    if s != [] {
      FilterMembers(s[1..], c);
    }
  }

  lemma {:induction false} FilterAppend(a: seq<Scenario>, b: seq<Scenario>, c: Criterion)
    ensures Filter(a + b, c) == Filter(a, c) + Filter(b, c)
  {
    if a == [] {
      assert a + b == b;
    } else {
      assert (a + b)[1..] == a[1..] + b;
      FilterAppend(a[1..], b, c);
    }
  }

  /** Walking the list one record further extends the filtered list by that
      record exactly when it satisfies the condition. */
  lemma FilterStep(s: seq<Scenario>, i: nat, c: Criterion)
    requires i < |s|
    ensures Filter(s[..i + 1], c) == Filter(s[..i], c) + if Keeps(c, s[i]) then [s[i]] else []
  {
    assert s[..i + 1] == s[..i] + [s[i]];
    FilterAppend(s[..i], [s[i]], c);
  }

  /** Population never increases along the list. */
  predicate NonIncreasing(s: seq<Scenario>)
  {
    forall i, j :: 0 <= i < j < |s| ==> s[i].population >= s[j].population
  }

  /** Inserts `x` in front of the first record whose population is not
      larger than its own, so that `x` precedes the records it ties with. */
  function Insert(x: Scenario, t: seq<Scenario>): seq<Scenario>
  {
    if t == [] || t[0].population <= x.population then [x] + t
    else [t[0]] + Insert(x, t[1..])
  }

  /** The stable descending sort by population. */
  function SortDesc(s: seq<Scenario>): seq<Scenario>
  {
    if s == [] then [] else Insert(s[0], SortDesc(s[1..]))
  }

  lemma {:induction false} InsertPermutation(x: Scenario, t: seq<Scenario>)
    ensures multiset(Insert(x, t)) == multiset{x} + multiset(t)
  {
    if !(t == [] || t[0].population <= x.population) {
      InsertPermutation(x, t[1..]);
      assert t == [t[0]] + t[1..];
    }
  }

  /** The sorted list holds exactly the input's records. */
  lemma {:induction false} SortDescPermutation(s: seq<Scenario>)
    ensures multiset(SortDesc(s)) == multiset(s)
    ensures |SortDesc(s)| == |s|
  {
    if s != [] {
      SortDescPermutation(s[1..]);
      InsertPermutation(s[0], SortDesc(s[1..]));
      assert s == [s[0]] + s[1..];
      assert |SortDesc(s)| == |multiset(SortDesc(s))|;
    }
  }

  lemma {:induction false} InsertNonIncreasing(x: Scenario, t: seq<Scenario>)
    requires NonIncreasing(t)
    ensures NonIncreasing(Insert(x, t))
    ensures Insert(x, t) != [] && (Insert(x, t)[0] == x || (t != [] && Insert(x, t)[0] == t[0]))
  {
    if !(t == [] || t[0].population <= x.population) {
      InsertNonIncreasing(x, t[1..]);
    }
  }

  /** The sorted list is ordered by non-increasing population. */
  lemma {:induction false} SortDescNonIncreasing(s: seq<Scenario>)
    ensures NonIncreasing(SortDesc(s))
  {
    if s != [] {
      SortDescNonIncreasing(s[1..]);
      InsertNonIncreasing(s[0], SortDesc(s[1..]));
    }
  }

  lemma {:induction false} InsertFilter(x: Scenario, t: seq<Scenario>, c: Criterion)
    requires NonIncreasing(t)
    ensures Filter(Insert(x, t), c) == if Keeps(c, x) then Insert(x, Filter(t, c)) else Filter(t, c)
  {
    if t == [] || t[0].population <= x.population {
      var f := Filter(t, c);
      FilterMembers(t, c);
      if Keeps(c, x) && f != [] {
        assert f[0] in t;
        assert t[0].population >= f[0].population;
      }
    } else {
      InsertFilter(x, t[1..], c);
    }
  }

  /** Sorting and then filtering gives the same list as filtering and then
      sorting: the ranker's walk over the sorted list sees each failure size's
      records in the order a sort of that size's records alone puts them. */
  lemma {:induction false} FilterSortDesc(s: seq<Scenario>, c: Criterion)
    ensures Filter(SortDesc(s), c) == SortDesc(Filter(s, c))
  {
    if s != [] {
      FilterSortDesc(s[1..], c);
      SortDescNonIncreasing(s[1..]);
      InsertFilter(s[0], SortDesc(s[1..]), c);
    }
  }

  /** A list whose records all share one population is already sorted. */
  lemma {:induction false} SortDescConstant(s: seq<Scenario>, v: int)
    requires forall o :: o in s ==> o.population == v
    ensures SortDesc(s) == s
  {
    if s != [] {
      SortDescConstant(s[1..], v);
    }
  }

  /** Stability: the records of any one population appear in the sorted list in
      the same relative order as in the input. */
  lemma SortDescStable(s: seq<Scenario>, v: int)
    ensures Filter(SortDesc(s), PopulationIs(v)) == Filter(s, PopulationIs(v))
  {
    FilterSortDesc(s, PopulationIs(v));
    FilterMembers(s, PopulationIs(v));
    SortDescConstant(Filter(s, PopulationIs(v)), v);
  }
}

/** The risk ranker (`add_cp` and `allocate_probabilities` in
    src/osira/sim.py).

    `add_cp` sorts all records by descending population, walks the sorted
    list and, for the records of one failure size, writes `rank` 1, 2, ... and
    `cum_probability = round(rank / (len(results) + 1), 3)` into the records
    themselves. `allocate_probabilities` calls it for each failure size and,
    for each target probability, picks the first ranked record whose
    cumulative probability is closest to the target. */
module Ranker {
  import opened Wrappers
  import opened Records
  import opened Sorting
  import opened Arith

  // ---------------------------------------------------------------------------
  // Cumulative probability
  // ---------------------------------------------------------------------------

  /** `rank / (total + 1)` rounded to a whole number of thousandths. */
  function Thousandths(rank: int, total: nat): int
  {
    (2000 * rank + total + 1) / (2 * (total + 1))
  }

  /** The rounding gives the nearest integer to `1000 * rank / (total + 1)`,
      a half rounded up. */
  lemma ThousandthsNearest(rank: int, total: nat)
    ensures var t := Thousandths(rank, total);
      2 * t * (total + 1) <= 2000 * rank + (total + 1) < 2 * (t + 1) * (total + 1)
  {
  }

  /** `round(rank / (total + 1), 3)`, as an exact rational. */
  function CumProbability(rank: int, total: nat): real
  {
    Thousandths(rank, total) as real / 1000.0
  }

  /** A later rank never gets a smaller cumulative probability. */
  lemma ThousandthsMonotone(r1: int, r2: int, total: nat)
    requires r1 <= r2
    ensures Thousandths(r1, total) <= Thousandths(r2, total)
  {
    var d := total + 1;
    var t1, t2 := Thousandths(r1, total), Thousandths(r2, total);
    ThousandthsNearest(r1, total);
    ThousandthsNearest(r2, total);
    assert 2 * t1 * d == t1 * (2 * d) && 2 * (t2 + 1) * d == (t2 + 1) * (2 * d);
    MulCancel(t1, t2 + 1, 2 * d);
  }

  /** A rank among `total` records gets a cumulative probability from 0 to 1. */
  lemma ThousandthsBounds(rank: int, total: nat)
    requires 1 <= rank <= total
    ensures 0 <= Thousandths(rank, total) <= 1000
  {
    var d := total + 1;
    var t := Thousandths(rank, total);
    ThousandthsNearest(rank, total);
    assert 2 * (t + 1) * d == (t + 1) * (2 * d) && 0 * (2 * d) == 0;
    MulCancel(0, t + 1, 2 * d);
    assert 2 * t * d == t * (2 * d) && 1001 * (2 * d) == 2002 * d;
    MulCancel(t, 1001, 2 * d);
  }

  /** Three decimal places cannot tell rank 1 apart from 0 once there are 2000
      records or more: its cumulative probability is then 0.0. */
  lemma FirstRankRoundsToZero(total: nat)
    requires total >= 2000
    ensures CumProbability(1, total) == 0.0
  {
    var d := total + 1;
    var t := Thousandths(1, total);
    ThousandthsNearest(1, total);
    assert 2 * (t + 1) * d == (t + 1) * (2 * d) && 0 * (2 * d) == 0;
    MulCancel(0, t + 1, 2 * d);
    assert 2 * t * d == t * (2 * d) && 1 * (2 * d) == 2 * d;
    MulCancel(t, 1, 2 * d);
  }

  /** With 100 records, rank 1 gets 0.01 and rank 50 gets 0.495. */
  lemma RoundingExamples()
    ensures CumProbability(1, 100) == 0.01
    ensures CumProbability(50, 100) == 0.495
  {
    assert Thousandths(1, 100) == 10;
    assert Thousandths(50, 100) == 495;
  }

  /** The cumulative probabilities of ranks 1 .. k. */
  function Curve(k: nat, total: nat): (c: seq<real>)
    ensures |c| == k && forall i :: 0 <= i < k ==> c[i] == CumProbability(i + 1, total)
  {
    seq(k, i requires 0 <= i < k => CumProbability(i + 1, total))
  }

  /** Along the ranked list the cumulative probability never decreases and,
      while the list is no longer than the total, stays within [0, 1]. */
  lemma CurveShape(k: nat, total: nat, i: nat, j: nat)
    requires i <= j < k
    ensures Curve(k, total)[i] <= Curve(k, total)[j]
    ensures k <= total ==> 0.0 <= Curve(k, total)[i] <= 1.0
  {
    ThousandthsMonotone(i + 1, j + 1, total);
    if k <= total {
      ThousandthsBounds(i + 1, total);
    }
  }

  // ---------------------------------------------------------------------------
  // Ranking one failure size
  // ---------------------------------------------------------------------------

  /** The ranked list `add_cp` returns: the records of failure size `nodes`,
      in the order of the descending population sort of all records. */
  function Group(results: seq<Scenario>, nodes: int): seq<Scenario>
  {
    Filter(SortDesc(results), NodesIs(nodes))
  }

  /** The ranked list holds exactly the records of that failure size, ordered by
      non-increasing population, and records of equal population keep their
      relative order from the input. */
  lemma GroupSpec(results: seq<Scenario>, nodes: int, v: int)
    ensures var g := Group(results, nodes);
      && multiset(g) == multiset(Filter(results, NodesIs(nodes)))
      && NonIncreasing(g)
      && Filter(g, PopulationIs(v)) == Filter(Filter(results, NodesIs(nodes)), PopulationIs(v))
  {
    var f := Filter(results, NodesIs(nodes));
    FilterSortDesc(results, NodesIs(nodes));
    SortDescPermutation(f);
    SortDescNonIncreasing(f);
    SortDescStable(f, v);
  }

  /** Every record of the ranked list carries its position as `rank` (1, 2, ...)
      and the cumulative probability of that rank among `total` records. */
  ghost predicate Ranked(ranked: seq<Scenario>, total: nat)
    reads ranked
  {
    forall k :: 0 <= k < |ranked| ==>
      ranked[k].rank == Some(k + 1) && ranked[k].cumProbability == Some(CumProbability(k + 1, total))
  }

  /** Writes the next rank and its cumulative probability into `item`, which
      extends the ranked list by one record. */
  method Stamp(ranked: seq<Scenario>, item: Scenario, total: nat)
    requires Ranked(ranked, total) && item !in ranked
    modifies item
    ensures item.rank == Some(|ranked| + 1)
    ensures item.cumProbability == Some(CumProbability(|ranked| + 1, total))
    ensures Ranked(ranked + [item], total)
  {
    item.rank := Some(|ranked| + 1);
    item.cumProbability := Some(CumProbability(|ranked| + 1, total));
  }

  /** The source's `add_cp`: it writes `rank` and `cum_probability` into the
      records of failure size `nodes` and leaves every other record alone. */
  method AddCp(results: seq<Scenario>, nodes: int) returns (ranked: seq<Scenario>)
    requires Distinct(results)
    modifies results
    ensures ranked == Group(results, nodes)
    ensures Ranked(ranked, |results|)
    ensures forall o :: o in results && o.nodes != nodes ==>
      o.rank == old(o.rank) && o.cumProbability == old(o.cumProbability)
  {
    var sorted := SortDesc(results);
    SortDescPermutation(results);
    DistinctPermutation(results, sorted);
    ranked := [];
    var rank := 1;
    for i := 0 to |sorted|
      invariant ranked == Filter(sorted[..i], NodesIs(nodes))
      invariant rank == |ranked| + 1
      invariant Ranked(ranked, |results|)
      invariant forall o :: o in results && o.nodes != nodes ==>
        o.rank == old(o.rank) && o.cumProbability == old(o.cumProbability)
    {
      FilterStep(sorted, i, NodesIs(nodes));
      var item := sorted[i];
      if item.nodes != nodes {
        continue;
      }
      FilterMembers(sorted[..i], NodesIs(nodes));
      assert multiset(sorted)[item] > 0;
      assert item in results;
      assert item !in sorted[..i];
      Stamp(ranked, item, |sorted|);
      ranked := ranked + [item];
      rank := rank + 1;
    }
    assert sorted[..|sorted|] == sorted;
  }

  // ---------------------------------------------------------------------------
  // Selecting a record per target probability
  // ---------------------------------------------------------------------------

  /** `abs(c - p)`. */
  function Distance(c: real, p: real): real
  {
    if c >= p then c - p else p - c
  }

  /** The index `min(..., key=lambda x: abs(x - p))` selects: the first position
      whose value is closest to `p`. */
  function ClosestIndex(cps: seq<real>, p: real): (k: nat)
    requires cps != []
    ensures k < |cps|
    ensures forall j :: 0 <= j < |cps| ==> Distance(cps[k], p) <= Distance(cps[j], p)
    ensures forall j :: 0 <= j < k ==> Distance(cps[j], p) > Distance(cps[k], p)
  {
    if |cps| == 1 then 0
    else
      var k := ClosestIndex(cps[..|cps| - 1], p);
      if Distance(cps[|cps| - 1], p) < Distance(cps[k], p) then |cps| - 1 else k
  }

  /** The `cum_probability` values the selection reads from the ranked records. */
  function Probabilities(ranked: seq<Scenario>): (r: seq<real>)
    requires forall k :: 0 <= k < |ranked| ==> ranked[k].cumProbability.Some?
    reads ranked
    ensures |r| == |ranked|
    ensures forall k :: 0 <= k < |ranked| ==> r[k] == ranked[k].cumProbability.value
  {
    if ranked == [] then []
    else Probabilities(ranked[..|ranked| - 1]) + [ranked[|ranked| - 1].cumProbability.value]
  }

  /** The record selected for failure size `nodes` and target probability `p`. */
  function Pick(results: seq<Scenario>, nodes: int, p: real): Scenario
    requires Group(results, nodes) != []
  {
    var g := Group(results, nodes);
    g[ClosestIndex(Curve(|g|, |results|), p)]
  }

  /** The record selected for a target probability belongs to the ranked list
      of its failure size; no record of that list is strictly closer to the
      target, and every record ranked before it is strictly farther away. */
  lemma PickSpec(results: seq<Scenario>, nodes: int, p: real)
    requires Group(results, nodes) != []
    ensures var g := Group(results, nodes);
      var c := Curve(|g|, |results|);
      exists k :: 0 <= k < |g| && Pick(results, nodes, p) == g[k]
        && Pick(results, nodes, p).nodes == nodes
        && (forall j :: 0 <= j < |g| ==> Distance(c[k], p) <= Distance(c[j], p))
        && (forall j :: 0 <= j < k ==> Distance(c[j], p) > Distance(c[k], p))
  {
    var g := Group(results, nodes);
    var k := ClosestIndex(Curve(|g|, |results|), p);
    GroupMembers(results, nodes);
    assert Pick(results, nodes, p) == g[k];
  }

  /** The records selected for one failure size, one per target probability. */
  function Picks(results: seq<Scenario>, nodes: int, ps: seq<real>): (r: seq<Scenario>)
    requires ps == [] || Group(results, nodes) != []
    ensures |r| == |ps| && forall j :: 0 <= j < |ps| ==> r[j] == Pick(results, nodes, ps[j])
  {
    seq(|ps|, j requires 0 <= j < |ps| => Pick(results, nodes, ps[j]))
  }

  /** Every failure size in `sizes` has at least one record. */
  predicate GroupsNonEmpty(results: seq<Scenario>, sizes: seq<int>)
  {
    forall i :: 0 <= i < |sizes| ==> Group(results, sizes[i]) != []
  }

  /** The selected records, grouped by failure size in the order given. */
  function Selections(results: seq<Scenario>, sizes: seq<int>, ps: seq<real>): seq<Scenario>
    requires ps == [] || GroupsNonEmpty(results, sizes)
  {
    if sizes == [] then []
    else Selections(results, sizes[..|sizes| - 1], ps) + Picks(results, sizes[|sizes| - 1], ps)
  }

  lemma {:induction false} SelectionsLength(results: seq<Scenario>, sizes: seq<int>, ps: seq<real>)
    requires ps == [] || GroupsNonEmpty(results, sizes)
    ensures |Selections(results, sizes, ps)| == |sizes| * |ps|
  {
    if sizes != [] {
      var init := sizes[..|sizes| - 1];
      SelectionsLength(results, init, ps);
      assert |Picks(results, sizes[|sizes| - 1], ps)| == |ps|;
      assert |sizes| * |ps| == |init| * |ps| + |ps|;
    }
  }

  lemma {:induction false} SelectionsPrefix(results: seq<Scenario>, sizes: seq<int>, ps: seq<real>, m: nat)
    requires ps == [] || GroupsNonEmpty(results, sizes)
    requires m <= |sizes|
    ensures Selections(results, sizes[..m], ps) <= Selections(results, sizes, ps)
    decreases |sizes| - m
  {
    if m < |sizes| {
      var k := |sizes| - 1;
      assert sizes[..k][..m] == sizes[..m];
      SelectionsPrefix(results, sizes[..k], ps, m);
    } else {
      assert sizes[..m] == sizes;
    }
  }

  /** One selected record per (failure size, probability) pair, ordered by
      failure size and then by probability. */
  lemma SelectionsAt(results: seq<Scenario>, sizes: seq<int>, ps: seq<real>, i: nat, j: nat)
    requires GroupsNonEmpty(results, sizes)
    requires i < |sizes| && j < |ps|
    ensures |Selections(results, sizes, ps)| == |sizes| * |ps|
    ensures i * |ps| + j < |Selections(results, sizes, ps)|
    ensures Selections(results, sizes, ps)[i * |ps| + j] == Pick(results, sizes[i], ps[j])
  {
    var n := |ps|;
    var pre := sizes[..i + 1];
    var all := Selections(results, sizes, ps);
    SelectionsLength(results, sizes, ps);
    SelectionsLength(results, sizes[..i], ps);
    SelectionsPrefix(results, sizes, ps, i + 1);
    assert pre[..|pre| - 1] == sizes[..i] && pre[|pre| - 1] == sizes[i];
    var head := Selections(results, sizes[..i], ps);
    var picks := Picks(results, sizes[i], ps);
    var part := Selections(results, pre, ps);
    assert part == head + picks;
    var k := |head|;
    ConcatAt(head, picks, k, j);
    assert part[k + j] == picks[j];
    assert all[k + j] == part[k + j];
    assert k == i * n;
    MulMonotone(i + 1, |sizes|, n);
    assert (i + 1) * n == i * n + n;
  }

  /** `min` of an empty ranked list raises an error in the source. */
  datatype AllocError = EmptyGroup(nodes: int)

  /** The records of failure size `nodes` carry their rank and cumulative
      probability. */
  ghost predicate GroupRanked(results: seq<Scenario>, nodes: int)
    reads results
  {
    GroupMembers(results, nodes);
    Ranked(Group(results, nodes), |results|)
  }

  /** The records of failure size `n` are records of the input list. */
  lemma GroupMembers(results: seq<Scenario>, n: int)
    ensures forall k :: 0 <= k < |Group(results, n)| ==>
      Group(results, n)[k] in results && Group(results, n)[k].nodes == n
  {
    SortDescPermutation(results);
    FilterMembers(SortDesc(results), NodesIs(n));
    var g := Group(results, n);
    forall k | 0 <= k < |g| ensures g[k] in results && g[k].nodes == n {
      assert g[k] in SortDesc(results);
      assert multiset(SortDesc(results))[g[k]] > 0;
    }
  }

  /** Picking for one more target probability appends one record. */
  lemma PicksStep(results: seq<Scenario>, nodes: int, ps: seq<real>, j: nat)
    requires j < |ps| && Group(results, nodes) != []
    ensures Picks(results, nodes, ps[..j + 1]) == Picks(results, nodes, ps[..j]) + [Pick(results, nodes, ps[j])]
  {
  }

  /** Ranking one more failure size appends its selections. */
  lemma SelectionsStep(results: seq<Scenario>, sizes: seq<int>, ps: seq<real>, i: nat)
    requires i < |sizes|
    requires ps == [] || GroupsNonEmpty(results, sizes[..i + 1])
    ensures ps == [] || GroupsNonEmpty(results, sizes[..i])
    ensures Selections(results, sizes[..i + 1], ps) == Selections(results, sizes[..i], ps) + Picks(results, sizes[i], ps)
  {
    assert sizes[..i + 1][..i] == sizes[..i];
    if ps != [] {
      assert forall k :: 0 <= k < i ==> sizes[..i][k] == sizes[..i + 1][k];
    }
  }

  /** The values the selection reads from a ranked list are its curve. */
  lemma ProbabilitiesOfRanked(ranked: seq<Scenario>, total: nat)
    requires Ranked(ranked, total)
    ensures Probabilities(ranked) == Curve(|ranked|, total)
  {
  }

  /** The inner loop of `allocate_probabilities`: one `min` over the ranked list
      of failure size `nodes` per target probability; `min` of an empty list
      raises an error. */
  method SelectForSize(results: seq<Scenario>, nodes: int, ranked: seq<Scenario>, probabilities: seq<real>)
    returns (r: Result<seq<Scenario>, AllocError>)
    requires ranked == Group(results, nodes) && Ranked(ranked, |results|)
    ensures r.Ok? <==> probabilities == [] || ranked != []
    ensures r.Ok? ==> r.value == Picks(results, nodes, probabilities)
    ensures r.Err? ==> r.error == EmptyGroup(nodes)
  {
    var output: seq<Scenario> := [];
    ProbabilitiesOfRanked(ranked, |results|);
    for j := 0 to |probabilities|
      invariant j > 0 ==> ranked != []
      invariant output == Picks(results, nodes, probabilities[..j])
    {
      if ranked == [] {
        return Err(EmptyGroup(nodes));
      }
      var k := ClosestIndex(Probabilities(ranked), probabilities[j]);
      output := output + [ranked[k]];
      PicksStep(results, nodes, probabilities, j);
    }
    assert probabilities[..|probabilities|] == probabilities;
    r := Ok(output);
  }

  /** The source's `allocate_probabilities`. */
  method AllocateProbabilities(results: seq<Scenario>, numSubstations: seq<int>, probabilities: seq<real>)
    returns (r: Result<seq<Scenario>, AllocError>)
    requires Distinct(results)
    modifies results
    ensures r.Ok? <==> probabilities == [] || GroupsNonEmpty(results, numSubstations)
    ensures r.Ok? ==> r.value == Selections(results, numSubstations, probabilities)
    ensures r.Ok? ==> forall i :: 0 <= i < |numSubstations| ==> GroupRanked(results, numSubstations[i])
    ensures r.Err? ==> exists i :: (
      && 0 <= i < |numSubstations| && r.error == EmptyGroup(numSubstations[i])
      && Group(results, numSubstations[i]) == [] && GroupsNonEmpty(results, numSubstations[..i])
      && (forall i' :: 0 <= i' < i ==> GroupRanked(results, numSubstations[i'])))
    ensures forall o :: o in results && o.nodes !in numSubstations ==>
      o.rank == old(o.rank) && o.cumProbability == old(o.cumProbability)
  {
    var output: seq<Scenario> := [];
    for i := 0 to |numSubstations|
      invariant probabilities == [] || GroupsNonEmpty(results, numSubstations[..i])
      invariant output == Selections(results, numSubstations[..i], probabilities)
      invariant forall i' :: 0 <= i' < i ==> GroupRanked(results, numSubstations[i'])
      invariant forall o :: o in results && o.nodes !in numSubstations[..i] ==>
        o.rank == old(o.rank) && o.cumProbability == old(o.cumProbability)
    {
      var nodes := numSubstations[i];
      label Before:
      var ranked := AddCp(results, nodes);
      forall i' | 0 <= i' < i ensures GroupRanked(results, numSubstations[i']) {
        var n := numSubstations[i'];
        if n != nodes {
          GroupMembers(results, n);
          assert old@Before(GroupRanked(results, n));
        }
      }
      assert GroupRanked(results, nodes);
      assert numSubstations[..i + 1] == numSubstations[..i] + [nodes];
      assert forall x :: x in numSubstations[..i + 1] ==> x in numSubstations;
      var picked := SelectForSize(results, nodes, ranked, probabilities);
      if picked.Err? {
        r := Err(picked.error);
        assert 0 <= i < |numSubstations| && r.error == EmptyGroup(numSubstations[i])
          && Group(results, numSubstations[i]) == [] && GroupsNonEmpty(results, numSubstations[..i])
          && (forall i' :: 0 <= i' < i ==> GroupRanked(results, numSubstations[i']));
        return;
      }
      output := output + picked.value;
      if probabilities != [] {
        assert forall k :: 0 <= k < i ==> numSubstations[..i + 1][k] == numSubstations[..i][k];
      }
      SelectionsStep(results, numSubstations, probabilities, i);
    }
    assert numSubstations[..|numSubstations|] == numSubstations;
    r := Ok(output);
  }
}
